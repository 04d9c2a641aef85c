/** Bar-by-bar replay: one position at a time, entered where a rule says so and left at
    the first bar that triggers an exit. */
module Replay {
  import opened Wrappers
  import opened Reals

  datatype Bar = Bar(epoch: int, open: real, high: real, low: real, close: Positive, volume: real) {
    predicate WellFormed() {
      low <= close <= high
    }
  }

  datatype Side = Long | Short

  datatype Plan = Plan(side: Side, entry: Positive, stop: real, target: Option<real>, risk: real)

  /** What a rule makes of a bar: nothing, a signal that is not traded, or a position
      opened `delay` bars later. */
  datatype Decision = NoSignal | NotEntered | Enter(delay: nat, plan: Plan)

  /** The holding limit once its default has been filled in: 0 is not a limit. */
  type HoldBars = n: int | n != 0 witness 1

  datatype Rules = Rules(leverage: int, maxHold: HoldBars, takerFee: real) {
    function LiqFrac(): (r: real)
      ensures 0.0 < r <= 1.0
    {
      1.0 / (if leverage > 1 then leverage else 1) as real
    }
  }

  datatype Reason = TakeProfit | StopLoss | Liquidation | TimeStop
  datatype Exit = Exit(price: real, reason: Reason)

  // ----- leaving -----

  /** How far a price is in the position's favour. */
  function Gain(s: Plan, price: real): real {
    if s.side.Long? then price - s.entry else s.entry - price
  }

  predicate HitsTarget(s: Plan, b: Bar) {
    s.target.Some? && if s.side.Long? then b.high >= s.target.value else b.low <= s.target.value
  }

  predicate HitsStop(s: Plan, b: Bar) {
    if s.side.Long? then b.low <= s.stop else b.high >= s.stop
  }

  /** The adverse extreme of the bar, as a fraction of the entry price. */
  predicate HitsLiquidation(s: Plan, r: Rules, b: Bar) {
    (if s.side.Long? then s.entry - b.low else b.high - s.entry) / s.entry >= r.LiqFrac()
  }

  /** The first of the four exits, in the engine's order, that bar j triggers. */
  function ExitAt(bars: seq<Bar>, s: Plan, entryIdx: nat, r: Rules, j: nat): Option<Exit>
    requires j < |bars|
  {
    var b := bars[j];
    if HitsTarget(s, b) then Some(Exit(s.target.value, TakeProfit))
    else if HitsStop(s, b) then Some(Exit(s.stop, StopLoss))
    else if HitsLiquidation(s, r, b) then
      Some(Exit(if s.side.Long? then s.entry * (1.0 - r.LiqFrac()) else s.entry * (1.0 + r.LiqFrac()), Liquidation))
    else if j - entryIdx >= r.maxHold then Some(Exit(b.close, TimeStop))
    else None
  }

  /** The first bar from j on that triggers an exit. */
  function FirstExit(bars: seq<Bar>, s: Plan, entryIdx: nat, r: Rules, j: nat): (x: Option<nat>)
    ensures x.Some? ==> j <= x.value < |bars| && ExitAt(bars, s, entryIdx, r, x.value).Some?
    ensures x.Some? ==> forall k :: j <= k < x.value ==> ExitAt(bars, s, entryIdx, r, k).None?
    ensures x.None? ==> forall k :: j <= k < |bars| ==> ExitAt(bars, s, entryIdx, r, k).None?
    decreases |bars| - j
  {
    if j >= |bars| then None
    else if ExitAt(bars, s, entryIdx, r, j).Some? then Some(j)
    else FirstExit(bars, s, entryIdx, r, j + 1)
  }

  datatype Trade = Trade(plan: Plan, entryIdx: nat, exitIdx: nat, exit: Exit, realized: real, pnlR: Option<real>)

  function TradeOf(s: Plan, entryIdx: nat, r: Rules, exitIdx: nat, x: Exit): Trade {
    var gain := Gain(s, x.price);
    Trade(s, entryIdx, exitIdx, x, (gain / s.entry - r.takerFee * 2.0) * s.entry,
          if s.risk > 0.0 then Some(gain / s.risk) else None)
  }

  // ----- the run -----

  datatype Outcome = Outcome(trades: seq<Trade>, signals: nat, liquidations: nat, feeDragPct: real)

  const NOTHING := Outcome([], 0, 0, 0.0)

  function Signal(o: Outcome): Outcome {
    o.(signals := o.signals + 1)
  }

  function Record(o: Outcome, r: Rules, t: Trade): Outcome {
    Outcome(o.trades + [t], o.signals,
            if t.exit.reason.Liquidation? then o.liquidations + 1 else o.liquidations,
            o.feeDragPct + r.takerFee * 2.0 * 100.0)
  }

  type Rule = (seq<Bar>, nat) -> Decision

  /** Continue from bar i with what has been recorded so far. */
  function RunFrom(rule: Rule, bars: seq<Bar>, r: Rules, i: nat, o: Outcome): Outcome
    decreases |bars| - i
  {
    if i + 1 >= |bars| then o
    else
      match rule(bars, i)
      case NoSignal => RunFrom(rule, bars, r, i + 1, o)
      case NotEntered => RunFrom(rule, bars, r, i + 1, Signal(o))
      case Enter(delay, s) =>
        var entryIdx := i + delay;
        var x := FirstExit(bars, s, entryIdx, r, entryIdx + 1);
        if x.None? then Signal(o)
        else
          var t := TradeOf(s, entryIdx, r, x.value, ExitAt(bars, s, entryIdx, r, x.value).value);
          RunFrom(rule, bars, r, x.value + 1, Record(Signal(o), r, t))
  }

  /** The first `win` bars only warm the indicators up. */
  function RunAll(rule: Rule, bars: seq<Bar>, r: Rules, win: nat): Outcome {
    if |bars| < win + 2 then NOTHING else RunFrom(rule, bars, r, win, NOTHING)
  }
}
