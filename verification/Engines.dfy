/** The entry rules of the four engines, and the loops that replay them. */
module Engines {
  import opened Wrappers
  import opened Reals
  import opened Replay

  datatype HtfBar = HtfBar(epoch: int, high: real, low: real, close: real)

  /** searchsorted(epochs, t, side="right"): how many leading bars had closed by time t. */
  function ClosedBy(htf: seq<HtfBar>, t: int): (n: nat)
    ensures n <= |htf|
    ensures forall k :: n <= k < |htf| ==> htf[k].epoch > t
    ensures n > 0 ==> htf[n - 1].epoch <= t
  {
    if htf == [] then 0
    else if htf[|htf| - 1].epoch <= t then |htf|
    else ClosedBy(htf[..|htf| - 1], t)
  }

  /** The last closed bar's index, clipped into the frame: with no bar closed yet this
      is 0, a bar that is still open. */
  function ClippedIndex(htf: seq<HtfBar>, t: int): nat
    requires htf != []
  {
    var n := ClosedBy(htf, t);
    if n == 0 then 0 else n - 1
  }

  function MaxHigh(bars: seq<Bar>, lo: nat, hi: nat): real
    requires lo < hi <= |bars|
  {
    if hi == lo + 1 then bars[lo].high
    else
      var m := MaxHigh(bars, lo, hi - 1);
      if bars[hi - 1].high > m then bars[hi - 1].high else m
  }

  function MinLow(bars: seq<Bar>, lo: nat, hi: nat): real
    requires lo < hi <= |bars|
  {
    if hi == lo + 1 then bars[lo].low
    else
      var m := MinLow(bars, lo, hi - 1);
      if bars[hi - 1].low < m then bars[hi - 1].low else m
  }

  function Distance(a: real, b: real): real {
    if a > b then a - b else b - a
  }

  // ----- MTF alignment: macro bias, breakout, engulfing; stop at the swing -----

  datatype MacroFrame = MacroFrame(bars: seq<HtfBar>, ema: seq<real>)

  datatype Mta = Mta(
    frames: seq<Option<MacroFrame>>, emaLen: nat, minFrames: nat,
    breakLookback: nat, swingLookback: nat, tpR: real, minStopFrac: real)

  function Present(emas: seq<Option<real>>): (r: seq<real>)
    ensures forall k :: 0 <= k < |r| ==> Some(r[k]) in emas
    ensures forall x :: Some(x) in emas ==> x in r
  {
    if emas == [] then []
    else
      var r := Present(emas[..|emas| - 1]);
      var last := emas[|emas| - 1];
      if last.Some? then r + [last.value] else r
  }

  /** +1 above every macro average there is, -1 below every one, 0 otherwise or if too few. */
  function MacroBias(close: real, emas: seq<Option<real>>, minFrames: nat): int {
    var present := Present(emas);
    if |present| < minFrames then 0
    else if forall k :: 0 <= k < |present| ==> close > present[k] then 1
    else if forall k :: 0 <= k < |present| ==> close < present[k] then -1
    else 0
  }

  /** The bar swallows the body of the one before, which went the other way. */
  predicate Engulfs(prev: Bar, b: Bar, isLong: bool) {
    if isLong then prev.close < prev.open && b.close > b.open && b.close > prev.open && b.open < prev.close
    else prev.close > prev.open && b.close < b.open && b.close < prev.open && b.open > prev.close
  }

  function MacroEmas(frames: seq<Option<MacroFrame>>, emaLen: nat, t: int): seq<Option<real>> {
    seq(|frames|, k requires 0 <= k < |frames| => MacroEma(frames[k], emaLen, t))
  }

  /** A frame shorter than the average needs, counted whole, reads as missing. */
  predicate TooShort(f: Option<MacroFrame>, emaLen: nat) {
    f.None? || |f.value.bars| < emaLen + 2
  }

  function MacroEma(f: Option<MacroFrame>, emaLen: nat, t: int): Option<real> {
    if TooShort(f, emaLen) || ClippedIndex(f.value.bars, t) >= |f.value.ema| then None
    else Some(f.value.ema[ClippedIndex(f.value.bars, t)])
  }

  function MtaPlan(tpR: real, minStopFrac: real, isLong: bool, entry: Positive, swing: real): Plan {
    if isLong then
      var risk := Max(entry - swing, entry * minStopFrac);
      Plan(Long, entry, entry - risk, Some(entry + tpR * risk), risk)
    else
      var risk := Max(swing - entry, entry * minStopFrac);
      Plan(Short, entry, entry + risk, Some(entry - tpR * risk), risk)
  }

  function MtaDecide(c: Mta, bars: seq<Bar>, i: nat): Decision {
    if i >= |bars| || i < 1 || i < c.breakLookback || i + 1 < c.swingLookback
       || c.breakLookback == 0 || c.swingLookback == 0 then NoSignal
    else
      var b, prev := bars[i], bars[i - 1];
      var bias := MacroBias(b.close, MacroEmas(c.frames, c.emaLen, b.epoch), c.minFrames);
      if bias == 0 then NoSignal
      else
        var isLong := bias == 1;
        var breakout := if isLong then b.close > MaxHigh(bars, i - c.breakLookback, i)
                        else b.close < MinLow(bars, i - c.breakLookback, i);
        if !breakout || !Engulfs(prev, b, isLong) then NoSignal
        else
          var lo := i + 1 - c.swingLookback;
          var swing := if isLong then MinLow(bars, lo, i + 1) else MaxHigh(bars, lo, i + 1);
          Enter(0, MtaPlan(c.tpR, c.minStopFrac, isLong, b.close, swing))
  }

  function MtaRule(c: Mta): Rule {
    (bars: seq<Bar>, i: nat) => MtaDecide(c, bars, i)
  }

  // ----- the playbooks evaluated on a trailing window and the closed HTF bars -----

  /** What evaluate() returns; a target of 0 means none was set. */
  datatype Playbook = Playbook(
    side: Side, entry: Positive, stop: real, target: real,
    limit: Option<Positive>, sweepPrice: real, atr: real)

  type Evaluate = (seq<Bar>, Option<seq<HtfBar>>) -> Option<Playbook>

  datatype Lsw = Lsw(evaluate: Evaluate, htf: Option<seq<HtfBar>>, win: nat)

  function Trailing(bars: seq<Bar>, i: nat, win: nat): seq<Bar>
    requires i < |bars|
  {
    bars[(if i + 1 >= win then i + 1 - win else 0)..i + 1]
  }

  function MarketPlan(p: Playbook): Plan {
    Plan(p.side, p.entry, p.stop, if p.target == 0.0 then None else Some(p.target), Distance(p.entry, p.stop))
  }

  /** The closed part of the higher timeframe, which is used only if the whole of it is long
      enough. */
  function LswFrame(htf: Option<seq<HtfBar>>, t: int): Option<seq<HtfBar>> {
    if htf.None? || |htf.value| < 30 then None else Some(htf.value[..ClosedBy(htf.value, t)])
  }

  function LswDecide(c: Lsw, bars: seq<Bar>, i: nat): Decision {
    if i >= |bars| then NoSignal
    else
      var p := c.evaluate(Trailing(bars, i, c.win), LswFrame(c.htf, bars[i].epoch));
      if p.None? then NoSignal else Enter(0, MarketPlan(p.value))
  }

  function LswRule(c: Lsw): Rule {
    (bars: seq<Bar>, i: nat) => LswDecide(c, bars, i)
  }

  // ----- SMC five conditions: fixed-percent stop and target -----

  /** The ATR condition reads a running average of all the bars so far; the volume
      condition reads its window. */
  datatype Smc5c = Smc5c(
    h4: Option<seq<HtfBar>>, h1: Option<seq<HtfBar>>, m15: Option<seq<HtfBar>>, emaSlow: nat,
    trendDir: seq<HtfBar> -> int, bosLookback: nat, fvgWindow: nat,
    atrHigh: seq<Bar> -> bool, volumeHigh: seq<Bar> -> bool, volWindow: nat,
    tpPct: real, slPct: real)

  function HtfMaxHigh(htf: seq<HtfBar>, lo: nat, hi: nat): real
    requires lo < hi <= |htf|
  {
    if hi == lo + 1 then htf[lo].high else Max(HtfMaxHigh(htf, lo, hi - 1), htf[hi - 1].high)
  }

  function HtfMinLow(htf: seq<HtfBar>, lo: nat, hi: nat): real
    requires lo < hi <= |htf|
  {
    if hi == lo + 1 then htf[lo].low
    else
      var m := HtfMinLow(htf, lo, hi - 1);
      if htf[hi - 1].low < m then htf[hi - 1].low else m
  }

  /** +1 if the last close is above the highs of the bars before it, -1 if below the lows. */
  function BosDir(htf: seq<HtfBar>, lookback: nat): int {
    if |htf| < lookback + 2 || lookback == 0 then 0
    else
      var last := |htf| - 1;
      if htf[last].close > HtfMaxHigh(htf, last - lookback, last) then 1
      else if htf[last].close < HtfMinLow(htf, last - lookback, last) then -1
      else 0
  }

  predicate GapAt(htf: seq<HtfBar>, j: nat, isLong: bool)
    requires 2 <= j < |htf|
  {
    if isLong then htf[j].low > htf[j - 2].high
    else htf[j].low <= htf[j - 2].high && htf[j].high < htf[j - 2].low
  }

  /** A gap of that side among the last `window` bars. */
  predicate FvgRecent(htf: seq<HtfBar>, window: nat, isLong: bool) {
    exists j :: 2 <= j < |htf| && |htf| - window <= j && GapAt(htf, j, isLong)
  }

  /** The frame up to its clipped index. */
  function UpTo(htf: seq<HtfBar>, t: int): seq<HtfBar>
    requires htf != []
  {
    htf[..ClippedIndex(htf, t) + 1]
  }

  function Smc5cPlan(tpPct: real, slPct: real, isLong: bool, entry: Positive): Plan {
    var stop := if isLong then entry * (1.0 - slPct) else entry * (1.0 + slPct);
    var target := if isLong then entry * (1.0 + tpPct) else entry * (1.0 - tpPct);
    Plan(if isLong then Long else Short, entry, stop, Some(target), Distance(entry, stop))
  }

  /** A frame shorter than five bars, counted whole, is missing. */
  predicate Usable(f: Option<seq<HtfBar>>) {
    f.Some? && |f.value| >= 5
  }

  function Smc5cDecide(c: Smc5c, bars: seq<Bar>, i: nat): Decision {
    if i >= |bars| || !Usable(c.h4) || !Usable(c.h1) || !Usable(c.m15) then NoSignal
    else
      var t := bars[i].epoch;
      if ClippedIndex(c.h4.value, t) < c.emaSlow + 2 then NoSignal
      else
        var trend := c.trendDir(UpTo(c.h4.value, t));
        var isLong := trend == 1;
        if trend == 0 || BosDir(UpTo(c.h1.value, t), c.bosLookback) != (if isLong then 1 else -1) then NoSignal
        else if !FvgRecent(UpTo(c.m15.value, t), c.fvgWindow, isLong) then NoSignal
        else if !c.atrHigh(bars[..i + 1]) || !c.volumeHigh(Trailing(bars, i, c.volWindow)) then NoSignal
        else Enter(0, Smc5cPlan(c.tpPct, c.slPct, isLong, bars[i].close))
  }

  function Smc5cRule(c: Smc5c): Rule {
    (bars: seq<Bar>, i: nat) => Smc5cDecide(c, bars, i)
  }

  // ----- SMC pipeline: market entry, or a limit order that waits for a retrace -----

  datatype Smc = Smc(evaluate: Evaluate, htf: seq<HtfBar>, win: nat,
                     retrace: bool, timeout: nat, tpRr: real, slBufferAtr: real)

  predicate Touches(side: Side, limit: real, b: Bar) {
    if side.Long? then b.low <= limit else b.high >= limit
  }

  /** The first bar in [j, stop) that trades at the limit. */
  function FirstFill(bars: seq<Bar>, side: Side, limit: real, j: nat, stop: nat): (r: Option<nat>)
    requires stop <= |bars|
    ensures r.Some? ==> j <= r.value < stop && Touches(side, limit, bars[r.value])
    ensures r.Some? ==> forall k :: j <= k < r.value ==> !Touches(side, limit, bars[k])
    ensures r.None? ==> forall k :: j <= k < stop ==> !Touches(side, limit, bars[k])
    decreases stop - j
  {
    if j >= stop then None
    else if Touches(side, limit, bars[j]) then Some(j)
    else FirstFill(bars, side, limit, j + 1, stop)
  }

  function WaitUntil(bars: seq<Bar>, i: nat, timeout: nat): nat {
    if i + 1 + timeout < |bars| then i + 1 + timeout else |bars|
  }

  /** The stop sits beyond the sweep wick, or half an ATR from the limit if that is no stop. */
  function RetracePlan(slBufferAtr: real, tpRr: real, p: Playbook): Plan
    requires p.limit.Some?
  {
    var limit := p.limit.value;
    var beyond := if p.side.Long? then p.sweepPrice - slBufferAtr * p.atr else p.sweepPrice + slBufferAtr * p.atr;
    var stop :=
      if p.side.Long? then (if beyond >= limit then limit - 0.5 * p.atr else beyond)
      else (if beyond <= limit then limit + 0.5 * p.atr else beyond);
    var risk := Distance(limit, stop);
    Plan(p.side, limit, stop,
         Some(if p.side.Long? then limit + tpRr * risk else limit - tpRr * risk), risk)
  }

  /** A frame shorter than 30 bars never has 30 closed ones, so the engine's early return is
      the first branch here. */
  function SmcDecide(c: Smc, bars: seq<Bar>, i: nat): Decision {
    if i >= |bars| || ClosedBy(c.htf, bars[i].epoch) < 30 then NoSignal
    else
      var p := c.evaluate(Trailing(bars, i, c.win), Some(c.htf[..ClosedBy(c.htf, bars[i].epoch)]));
      if p.None? then NoSignal
      else if !c.retrace then Enter(0, MarketPlan(p.value))
      else if p.value.limit.None? then NotEntered
      else
        var plan := RetracePlan(c.slBufferAtr, c.tpRr, p.value);
        var fill := FirstFill(bars, plan.side, plan.entry, i + 1, WaitUntil(bars, i, c.timeout));
        if fill.None? then NotEntered else Enter(fill.value - i, plan)
  }

  function SmcRule(c: Smc): Rule {
    (bars: seq<Bar>, i: nat) => SmcDecide(c, bars, i)
  }

  // ----- the loops -----

  method FindExit(bars: seq<Bar>, s: Plan, entryIdx: nat, r: Rules) returns (x: Option<nat>)
    ensures x == FirstExit(bars, s, entryIdx, r, entryIdx + 1)
  {
    var j := entryIdx + 1;
    while j < |bars|
      invariant FirstExit(bars, s, entryIdx, r, j) == FirstExit(bars, s, entryIdx, r, entryIdx + 1)
    {
      if ExitAt(bars, s, entryIdx, r, j).Some? {
        return Some(j);
      }
      j := j + 1;
    }
    return None;
  }

  method FindFill(bars: seq<Bar>, side: Side, limit: real, i: nat, timeout: nat) returns (fill: Option<nat>)
    requires i < |bars|
    ensures fill == FirstFill(bars, side, limit, i + 1, WaitUntil(bars, i, timeout))
  {
    var jj := i + 1;
    var stop := WaitUntil(bars, i, timeout);
    while jj < stop
      invariant FirstFill(bars, side, limit, jj, stop) == FirstFill(bars, side, limit, i + 1, stop)
    {
      if Touches(side, limit, bars[jj]) {
        return Some(jj);
      }
      jj := jj + 1;
    }
    return None;
  }

  method DecideSmc(c: Smc, bars: seq<Bar>, i: nat) returns (d: Decision)
    ensures d == SmcDecide(c, bars, i)
  {
    if i >= |bars| || ClosedBy(c.htf, bars[i].epoch) < 30 { return NoSignal; }
    var p := c.evaluate(Trailing(bars, i, c.win), Some(c.htf[..ClosedBy(c.htf, bars[i].epoch)]));
    if p.None? { return NoSignal; }
    if !c.retrace { return Enter(0, MarketPlan(p.value)); }
    if p.value.limit.None? { return NotEntered; }
    var plan := RetracePlan(c.slBufferAtr, c.tpRr, p.value);
    var fill := FindFill(bars, plan.side, plan.entry, i, c.timeout);
    if fill.None? { return NotEntered; }
    return Enter(fill.value - i, plan);
  }

  /** One turn of the scan: skip, count the signal, or hold to the exit and resume after it. */
  method Turn(ghost rule: Rule, d: Decision, bars: seq<Bar>, r: Rules, i: nat, res: Outcome)
    returns (next: nat, ended: bool, res': Outcome)
    requires i + 1 < |bars| && d == rule(bars, i)
    ensures ended ==> res' == RunFrom(rule, bars, r, i, res)
    ensures !ended ==> i < next && RunFrom(rule, bars, r, next, res') == RunFrom(rule, bars, r, i, res)
  {
    hide FirstExit, ExitAt;
    match d
    case NoSignal => return i + 1, false, res;
    case NotEntered => return i + 1, false, res.(signals := res.signals + 1);
    case Enter(delay, s) =>
      var entryIdx := i + delay;
      var x := FindExit(bars, s, entryIdx, r);
      if x.None? {
        return i, true, res.(signals := res.signals + 1);
      }
      var t := TradeOf(s, entryIdx, r, x.value, ExitAt(bars, s, entryIdx, r, x.value).value);
      res' := Outcome(res.trades + [t], res.signals + 1,
                      if t.exit.reason.Liquidation? then res.liquidations + 1 else res.liquidations,
                      res.feeDragPct + r.takerFee * 2.0 * 100.0);
      next, ended := x.value + 1, false;
  }

  /** The scan of the market-entry engines. */
  method Scan(rule: Rule, bars: seq<Bar>, r: Rules, win: nat) returns (res: Outcome)
    ensures res == RunAll(rule, bars, r, win)
  {
    hide RunFrom;
    res := NOTHING;
    if |bars| < win + 2 {
      return;
    }
    var i: nat, ended := win, false;
    while i + 1 < |bars| && !ended
      invariant if ended then res == RunFrom(rule, bars, r, win, NOTHING)
                else RunFrom(rule, bars, r, i, res) == RunFrom(rule, bars, r, win, NOTHING)
      decreases !ended, |bars| - i
    {
      i, ended, res := Turn(rule, rule(bars, i), bars, r, i, res);
    }
    AtTheEnd(rule, bars, r, i, res);
  }

  /** The SMC scan, which may first have to search for the fill of its limit. */
  method ScanSmc(c: Smc, bars: seq<Bar>, r: Rules, win: nat) returns (res: Outcome)
    ensures res == RunAll(SmcRule(c), bars, r, win)
  {
    hide RunFrom, SmcDecide;
    res := NOTHING;
    if |bars| < win + 2 {
      return;
    }
    var i: nat, ended := win, false;
    while i + 1 < |bars| && !ended
      invariant if ended then res == RunFrom(SmcRule(c), bars, r, win, NOTHING)
                else RunFrom(SmcRule(c), bars, r, i, res) == RunFrom(SmcRule(c), bars, r, win, NOTHING)
      decreases !ended, |bars| - i
    {
      var d := DecideSmc(c, bars, i);
      i, ended, res := Turn(SmcRule(c), d, bars, r, i, res);
    }
    AtTheEnd(SmcRule(c), bars, r, i, res);
  }

  lemma AtTheEnd(rule: Rule, bars: seq<Bar>, r: Rules, i: nat, o: Outcome)
    ensures i + 1 >= |bars| ==> RunFrom(rule, bars, r, i, o) == o
  {
  }
}
