/** The entries and exits of the engines in the prices of the bars: which bars are entered, at
    what stop and target, and what a trade is left at and earns. */
module EntryRules {
  import opened Wrappers
  import opened Reals
  import opened Replay
  import opened Engines
  import opened ReplayTheorems
  import opened EngineBounds

  // ----- windows and averages -----

  lemma {:induction false} WindowExact(bars: seq<Bar>, lo: nat, hi: nat)
    requires lo < hi <= |bars|
    ensures forall j :: lo <= j < hi ==> MinLow(bars, lo, hi) <= bars[j].low && bars[j].high <= MaxHigh(bars, lo, hi)
    ensures exists j :: lo <= j < hi && bars[j].low == MinLow(bars, lo, hi)
    ensures exists j :: lo <= j < hi && bars[j].high == MaxHigh(bars, lo, hi)
    decreases hi
  {
    var last := hi - 1;
    if last > lo {
      WindowExact(bars, lo, last);
      var a :| lo <= a < last && bars[a].low == MinLow(bars, lo, last);
      var b :| lo <= b < last && bars[b].high == MaxHigh(bars, lo, last);
      assert bars[if bars[last].low < bars[a].low then last else a].low == MinLow(bars, lo, hi);
      assert bars[if bars[last].high > bars[b].high then last else b].high == MaxHigh(bars, lo, hi);
    } else {
      assert bars[lo].low == MinLow(bars, lo, hi) && bars[lo].high == MaxHigh(bars, lo, hi);
    }
  }

  /** How many of the averages are there. */
  function CountSome(emas: seq<Option<real>>): nat {
    if emas == [] then 0 else CountSome(emas[1..]) + if emas[0].Some? then 1 else 0
  }

  lemma {:induction false} CountSomeGrows(emas: seq<Option<real>>, x: Option<real>)
    ensures CountSome(emas + [x]) == CountSome(emas) + if x.Some? then 1 else 0
    decreases |emas|
  {
    if emas == [] {
      assert emas + [x] == [x];
    } else {
      assert (emas + [x])[1..] == emas[1..] + [x];
      CountSomeGrows(emas[1..], x);
    }
  }

  lemma {:induction false} PresentCounts(emas: seq<Option<real>>)
    ensures |Present(emas)| == CountSome(emas)
    decreases |emas|
  {
    if emas != [] {
      var rest, last := emas[..|emas| - 1], emas[|emas| - 1];
      assert emas == rest + [last];
      PresentCounts(rest);
      CountSomeGrows(rest, last);
    }
  }

  /** The bias in the averages: long above every one there is, short below every one of at
      least one, if there are enough. */
  lemma BiasWritten(close: real, emas: seq<Option<real>>, minFrames: nat)
    ensures MacroBias(close, emas, minFrames) == 1 <==>
            CountSome(emas) >= minFrames && forall x :: Some(x) in emas ==> close > x
    ensures MacroBias(close, emas, minFrames) == -1 <==>
            CountSome(emas) >= minFrames && CountSome(emas) > 0 && forall x :: Some(x) in emas ==> close < x
    ensures MacroBias(close, emas, minFrames) in {-1, 0, 1}
  {
    PresentCounts(emas);
    var p := Present(emas);
    assert (forall k :: 0 <= k < |p| ==> close > p[k]) <==> forall x :: Some(x) in emas ==> close > x;
    assert (forall k :: 0 <= k < |p| ==> close < p[k]) <==> forall x :: Some(x) in emas ==> close < x;
  }

  /** The averages read: of each frame long enough, its average at the last of the n bars that
      had closed by t, or at its first bar if none had. */
  lemma AverageRead(frames: seq<Option<MacroFrame>>, emaLen: nat, t: int, k: nat, n: nat)
    requires k < |frames| && frames[k].Some? && n <= |frames[k].value.bars|
    requires n > 0 ==> frames[k].value.bars[n - 1].epoch <= t
    requires forall j :: n <= j < |frames[k].value.bars| ==> frames[k].value.bars[j].epoch > t
    ensures
      var f, at := frames[k].value, if n > 0 then n - 1 else 0;
      MacroEmas(frames, emaLen, t)[k] ==
        if |f.bars| < emaLen + 2 || at >= |f.ema| then None else Some(f.ema[at])
  {
    assert ClosedBy(frames[k].value.bars, t) == n;
  }

  // ----- the alignment engine -----

  /** Enough history for the lookbacks, which are not empty. */
  predicate InRange(c: Mta, bars: seq<Bar>, i: nat) {
    && 1 <= i < |bars| && c.breakLookback > 0 && c.swingLookback > 0
    && c.breakLookback <= i && c.swingLookback <= i + 1
  }

  /** Enough averages, the close above every one of them and above every high of the lookback,
      and a rising body that swallows the falling one before it. */
  predicate LongEntry(c: Mta, bars: seq<Bar>, i: nat)
    requires InRange(c, bars, i)
  {
    var b, prev, emas := bars[i], bars[i - 1], MacroEmas(c.frames, c.emaLen, bars[i].epoch);
    && CountSome(emas) >= c.minFrames
    && (forall k :: 0 <= k < |emas| && emas[k].Some? ==> b.close > emas[k].value)
    && (forall j :: i - c.breakLookback <= j < i ==> b.close > bars[j].high)
    && prev.close < prev.open && b.close > b.open && b.open < prev.close && b.close > prev.open
  }

  /** The mirror image, with at least one average to be below. */
  predicate ShortEntry(c: Mta, bars: seq<Bar>, i: nat)
    requires InRange(c, bars, i)
  {
    var b, prev, emas := bars[i], bars[i - 1], MacroEmas(c.frames, c.emaLen, bars[i].epoch);
    && CountSome(emas) >= c.minFrames && CountSome(emas) > 0
    && (forall k :: 0 <= k < |emas| && emas[k].Some? ==> b.close < emas[k].value)
    && (forall j :: i - c.breakLookback <= j < i ==> b.close < bars[j].low)
    && prev.close > prev.open && b.close < b.open && b.open > prev.close && b.close < prev.open
  }

  /** A long's stop under the lows of the swing, but not too near, and its target. */
  predicate LongPlan(c: Mta, bars: seq<Bar>, i: nat, p: Plan)
    requires InRange(c, bars, i)
  {
    && p.side == Long && p.entry == bars[i].close
    && p.stop == p.entry - p.risk && p.target.Some? && p.target.value - p.entry == c.tpR * p.risk
    && p.risk >= p.entry * c.minStopFrac
    && (forall j :: i - c.swingLookback < j <= i ==> p.stop <= bars[j].low)
    && (p.risk == p.entry * c.minStopFrac || exists j :: i - c.swingLookback < j <= i && p.stop == bars[j].low)
  }

  predicate ShortPlan(c: Mta, bars: seq<Bar>, i: nat, p: Plan)
    requires InRange(c, bars, i)
  {
    && p.side == Short && p.entry == bars[i].close
    && p.stop == p.entry + p.risk && p.target.Some? && p.entry - p.target.value == c.tpR * p.risk
    && p.risk >= p.entry * c.minStopFrac
    && (forall j :: i - c.swingLookback < j <= i ==> p.stop >= bars[j].high)
    && (p.risk == p.entry * c.minStopFrac || exists j :: i - c.swingLookback < j <= i && p.stop == bars[j].high)
  }

  /** The plan at one entry price and one swing extreme. */
  lemma PlanAt(tpR: real, minStopFrac: real, entry: Positive, swing: real)
    ensures
      var p, floor := MtaPlan(tpR, minStopFrac, true, entry, swing), entry * minStopFrac;
      && p.side == Long && p.entry == entry && p.stop == entry - p.risk
      && p.target.Some? && p.target.value - entry == tpR * p.risk
      && p.risk >= floor && p.stop <= swing && (p.risk == floor || p.stop == swing)
    ensures
      var p, floor := MtaPlan(tpR, minStopFrac, false, entry, swing), entry * minStopFrac;
      && p.side == Short && p.entry == entry && p.stop == entry + p.risk
      && p.target.Some? && entry - p.target.value == tpR * p.risk
      && p.risk >= floor && p.stop >= swing && (p.risk == floor || p.stop == swing)
  {
    var floor := entry * minStopFrac;
    assert MtaPlan(tpR, minStopFrac, true, entry, swing).risk == Max(entry - swing, floor);
    assert MtaPlan(tpR, minStopFrac, false, entry, swing).risk == Max(swing - entry, floor);
  }

  lemma LongPlanWritten(c: Mta, bars: seq<Bar>, i: nat)
    requires InRange(c, bars, i)
    ensures LongPlan(c, bars, i, MtaPlan(c.tpR, c.minStopFrac, true, bars[i].close,
                                         MinLow(bars, i + 1 - c.swingLookback, i + 1)))
  {
    hide MinLow, MaxHigh, MtaPlan;
    WindowExact(bars, i + 1 - c.swingLookback, i + 1);
    PlanAt(c.tpR, c.minStopFrac, bars[i].close, MinLow(bars, i + 1 - c.swingLookback, i + 1));
  }

  lemma ShortPlanWritten(c: Mta, bars: seq<Bar>, i: nat)
    requires InRange(c, bars, i)
    ensures ShortPlan(c, bars, i, MtaPlan(c.tpR, c.minStopFrac, false, bars[i].close,
                                          MaxHigh(bars, i + 1 - c.swingLookback, i + 1)))
  {
    hide MinLow, MaxHigh, MtaPlan;
    WindowExact(bars, i + 1 - c.swingLookback, i + 1);
    PlanAt(c.tpR, c.minStopFrac, bars[i].close, MaxHigh(bars, i + 1 - c.swingLookback, i + 1));
  }

  /** The alignment engine enters long, or short, exactly on these conditions, at once, and
      with this plan. */
  lemma MtaEntersIff(c: Mta, bars: seq<Bar>, i: nat)
    ensures
      var d := MtaDecide(c, bars, i);
      && (d.Enter? ==> InRange(c, bars, i) && d.delay == 0)
      && (InRange(c, bars, i) ==>
            && (d.Enter? && d.plan.side == Long <==> LongEntry(c, bars, i))
            && (d.Enter? && d.plan.side == Short <==> ShortEntry(c, bars, i))
            && (d.Enter? && d.plan.side == Long ==> LongPlan(c, bars, i, d.plan))
            && (d.Enter? && d.plan.side == Short ==> ShortPlan(c, bars, i, d.plan)))
      && (!d.Enter? ==> d == NoSignal)
  {
    hide MinLow, MaxHigh, MacroEmas, CountSome, MacroBias, LongPlan, ShortPlan;
    if InRange(c, bars, i) {
      var emas := MacroEmas(c.frames, c.emaLen, bars[i].epoch);
      WindowExact(bars, i - c.breakLookback, i);
      BiasWritten(bars[i].close, emas, c.minFrames);
      LongPlanWritten(c, bars, i);
      ShortPlanWritten(c, bars, i);
    }
  }

  /** Every trade of every alignment run was entered on these conditions. */
  lemma MtaTradesWritten(c: Mta, bars: seq<Bar>, r: Rules, win: nat, k: nat)
    requires k < |RunAll(MtaRule(c), bars, r, win).trades|
    ensures
      var t := RunAll(MtaRule(c), bars, r, win).trades[k];
      && InRange(c, bars, t.entryIdx)
      && (if t.plan.side == Long then LongEntry(c, bars, t.entryIdx) && LongPlan(c, bars, t.entryIdx, t.plan)
          else ShortEntry(c, bars, t.entryIdx) && ShortPlan(c, bars, t.entryIdx, t.plan))
  {
    hide RunFrom, TradesFrom, Genuine, MtaDecide, LongEntry, ShortEntry, LongPlan, ShortPlan, InRange;
    RunTrades(MtaRule(c), bars, r, win);
    var b := TradeOfRule(MtaRule(c), bars, r, win, k);
    MtaEntersIff(c, bars, b);
  }

  // ----- the five-condition engine -----

  lemma {:induction false} FrameWindow(htf: seq<HtfBar>, lo: nat, hi: nat)
    requires lo < hi <= |htf|
    ensures forall j :: lo <= j < hi ==> HtfMinLow(htf, lo, hi) <= htf[j].low && htf[j].high <= HtfMaxHigh(htf, lo, hi)
    ensures exists j :: lo <= j < hi && htf[j].low == HtfMinLow(htf, lo, hi)
    ensures exists j :: lo <= j < hi && htf[j].high == HtfMaxHigh(htf, lo, hi)
    decreases hi
  {
    var last := hi - 1;
    if last > lo {
      FrameWindow(htf, lo, last);
      var a :| lo <= a < last && htf[a].low == HtfMinLow(htf, lo, last);
      var b :| lo <= b < last && htf[b].high == HtfMaxHigh(htf, lo, last);
      assert htf[if htf[last].low < htf[a].low then last else a].low == HtfMinLow(htf, lo, hi);
      assert htf[if htf[last].high > htf[b].high then last else b].high == HtfMaxHigh(htf, lo, hi);
    } else {
      assert htf[lo].low == HtfMinLow(htf, lo, hi) && htf[lo].high == HtfMaxHigh(htf, lo, hi);
    }
  }

  /** The last bar closes above every high, or below every low, of the lookback before it. */
  lemma BosWritten(htf: seq<HtfBar>, lookback: nat)
    ensures
      var n := |htf|;
      var enough := n >= lookback + 2 && lookback > 0;
      var up := enough && forall j :: n - 1 - lookback <= j < n - 1 ==> htf[n - 1].close > htf[j].high;
      var down := enough && forall j :: n - 1 - lookback <= j < n - 1 ==> htf[n - 1].close < htf[j].low;
      BosDir(htf, lookback) == if up then 1 else if down then -1 else 0
  {
    hide HtfMaxHigh, HtfMinLow;
    if |htf| >= lookback + 2 && lookback > 0 { FrameWindow(htf, |htf| - 1 - lookback, |htf| - 1); }
  }

  /** A gap up, or down and not up, among the last bars of the window. */
  lemma GapWritten(htf: seq<HtfBar>, window: nat)
    ensures FvgRecent(htf, window, true) <==>
            exists j :: 2 <= j < |htf| && j >= |htf| - window && htf[j].low > htf[j - 2].high
    ensures FvgRecent(htf, window, false) <==>
            exists j :: 2 <= j < |htf| && j >= |htf| - window
                        && htf[j].high < htf[j - 2].low && !(htf[j].low > htf[j - 2].high)
  {
    if j :| 2 <= j < |htf| && j >= |htf| - window && htf[j].low > htf[j - 2].high {
      assert GapAt(htf, j, true);
    }
    if j :| 2 <= j < |htf| && j >= |htf| - window && htf[j].high < htf[j - 2].low && !(htf[j].low > htf[j - 2].high) {
      assert GapAt(htf, j, false);
    }
  }

  /** The part of a frame that is read: what had closed, but at least its first bar. */
  lemma ReadUpTo(htf: seq<HtfBar>, t: int, n: nat)
    requires htf != [] && HadClosed(htf, t, n)
    ensures UpTo(htf, t) == htf[..if n > 0 then n else 1]
  {
    assert ClosedBy(htf, t) == n;
  }

  /** The five conditions, one by one, for each side, and the plan they lead to. */
  lemma Smc5cEntersIff(c: Smc5c, bars: seq<Bar>, i: nat)
    requires i < |bars|
    ensures
      var d, t := Smc5cDecide(c, bars, i), bars[i].epoch;
      var framed := c.h4.Some? && |c.h4.value| >= 5 && c.h1.Some? && |c.h1.value| >= 5
                    && c.m15.Some? && |c.m15.value| >= 5 && ClosedBy(c.h4.value, t) >= c.emaSlow + 3;
      var active := c.atrHigh(bars[..i + 1]) && c.volumeHigh(Trailing(bars, i, c.volWindow));
      && (d.Enter? && d.plan.side == Long <==>
            framed && active && c.trendDir(UpTo(c.h4.value, t)) == 1
            && BosDir(UpTo(c.h1.value, t), c.bosLookback) == 1 && FvgRecent(UpTo(c.m15.value, t), c.fvgWindow, true))
      && (d.Enter? && d.plan.side == Short <==>
            framed && active && c.trendDir(UpTo(c.h4.value, t)) !in {0, 1}
            && BosDir(UpTo(c.h1.value, t), c.bosLookback) == -1 && FvgRecent(UpTo(c.m15.value, t), c.fvgWindow, false))
      && (d.Enter? ==>
            && d.delay == 0 && d.plan.entry == bars[i].close && d.plan.risk == Distance(d.plan.entry, d.plan.stop)
            && if d.plan.side == Long then PercentPlan(d.plan, 0.0 - c.slPct, c.tpPct)
               else PercentPlan(d.plan, c.slPct, 0.0 - c.tpPct))
  {
    hide BosDir, FvgRecent, Trailing, UpTo, Distance, PercentPlan, Smc5cPlan;
    if i < |bars| {
      PercentPlans(c.tpPct, c.slPct, bars[i].close);
    }
  }

  /** Stop and target a fraction of the entry price away from it. */
  predicate PercentPlan(p: Plan, toStop: real, toTarget: real) {
    p.target.Some? && p.stop - p.entry == toStop * p.entry && p.target.value - p.entry == toTarget * p.entry
  }

  lemma PercentPlans(tpPct: real, slPct: real, entry: Positive)
    ensures
      var p := Smc5cPlan(tpPct, slPct, true, entry);
      p.side == Long && p.entry == entry && p.risk == Distance(entry, p.stop) && PercentPlan(p, 0.0 - slPct, tpPct)
    ensures
      var p := Smc5cPlan(tpPct, slPct, false, entry);
      p.side == Short && p.entry == entry && p.risk == Distance(entry, p.stop) && PercentPlan(p, slPct, 0.0 - tpPct)
  {
    var sl, tp := slPct * entry, tpPct * entry;
    assert entry * (1.0 - slPct) == entry - sl && entry * (1.0 + slPct) == entry + sl;
    assert entry * (1.0 - tpPct) == entry - tp && entry * (1.0 + tpPct) == entry + tp;
    assert (0.0 - slPct) * entry == 0.0 - sl && (0.0 - tpPct) * entry == 0.0 - tp;
  }

  // ----- the sweep and SMC engines -----

  /** A market entry takes side, price and stop from the playbook, a target unless it is 0, and
      risks what lies between entry and stop. */
  lemma MarketWritten(p: Playbook)
    ensures
      var plan := MarketPlan(p);
      && plan.side == p.side && plan.entry == p.entry && plan.stop == p.stop
      && plan.target == (if p.target == 0.0 then None else Some(p.target))
      && (plan.risk == p.entry - p.stop || plan.risk == p.stop - p.entry) && plan.risk >= 0.0
  {
  }

  /** A resting entry: the stop a buffer beyond the swept price, or half an ATR from the limit
      if that would be no stop; the target in units of the risk. */
  lemma RetraceWritten(slBufferAtr: real, tpRr: real, p: Playbook)
    requires p.limit.Some?
    ensures
      var plan, limit := RetracePlan(slBufferAtr, tpRr, p), p.limit.value;
      && plan.side == p.side && plan.entry == limit
      && (p.side == Long ==>
            && plan.stop == (if p.sweepPrice - slBufferAtr * p.atr < limit then p.sweepPrice - slBufferAtr * p.atr
                             else limit - 0.5 * p.atr)
            && plan.target.Some? && plan.target.value - limit == tpRr * plan.risk)
      && (p.side == Short ==>
            && plan.stop == (if p.sweepPrice + slBufferAtr * p.atr > limit then p.sweepPrice + slBufferAtr * p.atr
                             else limit + 0.5 * p.atr)
            && plan.target.Some? && limit - plan.target.value == tpRr * plan.risk)
      && (plan.risk == limit - plan.stop || plan.risk == plan.stop - limit) && plan.risk >= 0.0
  {
  }

  /** n leading bars had closed by t. */
  predicate HadClosed(htf: seq<HtfBar>, t: int, n: nat) {
    n <= |htf| && (n > 0 ==> htf[n - 1].epoch <= t) && forall j :: n <= j < |htf| ==> htf[j].epoch > t
  }

  /** The sweep engine enters exactly when evaluate finds a setup in the last `win` bars and, if
      the feed has 30 bars at all, those of its bars that had closed. */
  lemma LswEntersIff(c: Lsw, bars: seq<Bar>, i: nat, n: nat)
    requires i < |bars| && (c.htf.Some? ==> HadClosed(c.htf.value, bars[i].epoch, n))
    ensures
      var window := bars[(if i + 1 >= c.win then i + 1 - c.win else 0)..i + 1];
      var p := c.evaluate(window, if c.htf.Some? && |c.htf.value| >= 30 then Some(c.htf.value[..n]) else None);
      LswDecide(c, bars, i) == if p.Some? then Enter(0, MarketPlan(p.value)) else NoSignal
  {
    if c.htf.Some? { assert ClosedBy(c.htf.value, bars[i].epoch) == n; }
  }

  /** The SMC engine asks for 30 closed bars; a setup is entered at once, or rests at its limit
      until a bar fills it, and is left if it has none or the timeout comes first. */
  lemma SmcEntersIff(c: Smc, bars: seq<Bar>, i: nat, n: nat)
    requires i < |bars| && HadClosed(c.htf, bars[i].epoch, n)
    ensures
      var window := bars[(if i + 1 >= c.win then i + 1 - c.win else 0)..i + 1];
      var p, d := c.evaluate(window, Some(c.htf[..n])), SmcDecide(c, bars, i);
      && (d == NoSignal <==> n < 30 || p.None?)
      && (n >= 30 && p.Some? && !c.retrace ==> d == Enter(0, MarketPlan(p.value)))
      && (n >= 30 && p.Some? && c.retrace && p.value.limit.None? ==> d == NotEntered)
      && (n >= 30 && p.Some? && c.retrace && p.value.limit.Some? ==>
            (var limit := p.value.limit.value;
             && (d.Enter? ==> d.plan == RetracePlan(c.slBufferAtr, c.tpRr, p.value) && 0 < d.delay <= c.timeout
                              && i + d.delay < |bars| && TradesAt(p.value.side, limit, bars[i + d.delay]))
             && forall j :: i < j <= i + c.timeout && j < |bars| && (d.Enter? ==> j < i + d.delay) ==>
                  !TradesAt(p.value.side, limit, bars[j])))
  {
    assert ClosedBy(c.htf, bars[i].epoch) == n;
    hide RetracePlan;
  }

  /** The bar trades at the limit. */
  predicate TradesAt(side: Side, limit: real, b: Bar) {
    if side == Long then b.low <= limit else b.high >= limit
  }

  // ----- leaving -----

  /** The margin is gone: the adverse extreme is a full 1/leverage of the entry away. */
  lemma LiquidationWritten(p: Plan, r: Rules, b: Bar)
    ensures
      var lev := (if r.leverage > 1 then r.leverage else 1) as real;
      HitsLiquidation(p, r, b) <==>
        if p.side == Long then (p.entry - b.low) * lev >= p.entry else (b.high - p.entry) * lev >= p.entry
  {
  }

  /** Which exit bar j triggers for a long, if any, and at what price: target first, then the
      stop, then the liquidation, then the close of the last bar allowed. */
  lemma LongExitWritten(bars: seq<Bar>, p: Plan, entryIdx: nat, r: Rules, j: nat)
    requires j < |bars| && p.side == Long
    ensures
      var x, b, lev := ExitAt(bars, p, entryIdx, r, j), bars[j], (if r.leverage > 1 then r.leverage else 1) as real;
      if p.target.Some? && b.high >= p.target.value then x == Some(Exit(p.target.value, TakeProfit))
      else if b.low <= p.stop then x == Some(Exit(p.stop, StopLoss))
      else if (p.entry - b.low) * lev >= p.entry then
        x.Some? && x.value.reason == Liquidation && p.entry - x.value.price == p.entry / lev
      else x == if j - entryIdx >= r.maxHold then Some(Exit(b.close, TimeStop)) else None
  {
    LiquidationWritten(p, r, bars[j]);
    hide HitsLiquidation, Rules.LiqFrac;
  }

  lemma ShortExitWritten(bars: seq<Bar>, p: Plan, entryIdx: nat, r: Rules, j: nat)
    requires j < |bars| && p.side == Short
    ensures
      var x, b, lev := ExitAt(bars, p, entryIdx, r, j), bars[j], (if r.leverage > 1 then r.leverage else 1) as real;
      if p.target.Some? && b.low <= p.target.value then x == Some(Exit(p.target.value, TakeProfit))
      else if b.high >= p.stop then x == Some(Exit(p.stop, StopLoss))
      else if (b.high - p.entry) * lev >= p.entry then
        x.Some? && x.value.reason == Liquidation && x.value.price - p.entry == p.entry / lev
      else x == if j - entryIdx >= r.maxHold then Some(Exit(b.close, TimeStop)) else None
  {
    LiquidationWritten(p, r, bars[j]);
    hide HitsLiquidation, Rules.LiqFrac;
  }

  /** What a recorded trade earns: per unit the move in its favour less two fees on the entry,
      and that move in units of its risk. */
  lemma EarningsWritten(bars: seq<Bar>, r: Rules, i: nat, t: Trade)
    requires Genuine(bars, r, i, t)
    ensures
      var move := if t.plan.side == Long then t.exit.price - t.plan.entry else t.plan.entry - t.exit.price;
      && t.realized == move - 2.0 * r.takerFee * t.plan.entry
      && (t.pnlR.Some? <==> t.plan.risk > 0.0)
      && (t.pnlR.Some? ==> t.pnlR.value * t.plan.risk == move)
  {
    hide FirstExit, ExitAt;
    RealizedIsGainLessFees(bars, r, i, t);
  }
}
