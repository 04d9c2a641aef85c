/** Which engines are free of look-ahead, which are not, and exactly when. */
module EngineTheorems {
  import opened Wrappers
  import opened Reals
  import opened Replay
  import opened Engines
  import opened ReplayTheorems

  // ----- windows of the first m bars -----

  lemma {:induction false} WindowPrefix(bars: seq<Bar>, lo: nat, hi: nat, m: nat)
    requires lo < hi <= m <= |bars|
    ensures MaxHigh(bars[..m], lo, hi) == MaxHigh(bars, lo, hi)
    ensures MinLow(bars[..m], lo, hi) == MinLow(bars, lo, hi)
    decreases hi
  {
    if hi > lo + 1 {
      WindowPrefix(bars, lo, hi - 1, m);
    }
  }

  lemma TrailingPrefix(bars: seq<Bar>, i: nat, win: nat, m: nat)
    requires i < m <= |bars|
    ensures Trailing(bars[..m], i, win) == Trailing(bars, i, win)
    ensures bars[..m][..i + 1] == bars[..i + 1]
  {
    assert bars[..m][..i + 1] == bars[..i + 1];
  }

  // ----- the market-entry engines are causal -----

  lemma MtaIsCausal(c: Mta, bars: seq<Bar>, m: nat)
    requires m <= |bars|
    ensures CausalUpTo(MtaRule(c), bars, m)
  {
    forall i: nat | i < m
      ensures MtaDecide(c, bars[..m], i) == MtaDecide(c, bars, i)
    {
      if !(i < 1 || i < c.breakLookback || i + 1 < c.swingLookback || c.breakLookback == 0 || c.swingLookback == 0) {
        WindowPrefix(bars, i - c.breakLookback, i, m);
        WindowPrefix(bars, i + 1 - c.swingLookback, i + 1, m);
      }
    }
  }

  lemma LswIsCausal(c: Lsw, bars: seq<Bar>, m: nat)
    requires m <= |bars|
    ensures CausalUpTo(LswRule(c), bars, m)
  {
    forall i: nat | i < m
      ensures LswDecide(c, bars[..m], i) == LswDecide(c, bars, i)
    {
      TrailingPrefix(bars, i, c.win, m);
    }
  }

  lemma Smc5cIsCausal(c: Smc5c, bars: seq<Bar>, m: nat)
    requires m <= |bars|
    ensures CausalUpTo(Smc5cRule(c), bars, m)
  {
    forall i: nat | i < m
      ensures Smc5cDecide(c, bars[..m], i) == Smc5cDecide(c, bars, i)
    {
      TrailingPrefix(bars, i, c.volWindow, m);
    }
  }

  // ----- a resting limit order is where causality ends -----

  /** A limit is resting at bar i and is first traded at bar m or later. */
  predicate LateFill(c: Smc, bars: seq<Bar>, m: nat, i: nat) {
    && i < |bars| && ClosedBy(c.htf, bars[i].epoch) >= 30 && c.retrace
    && var p := c.evaluate(Trailing(bars, i, c.win), Some(c.htf[..ClosedBy(c.htf, bars[i].epoch)]));
       p.Some? && p.value.limit.Some?
       && var fill := FirstFill(bars, p.value.side, p.value.limit.value, i + 1, WaitUntil(bars, i, c.timeout));
          fill.Some? && fill.value >= m
  }

  /** In retrace mode a decision depends on later bars exactly when a resting limit is
      filled by one of them; market mode never does. */
  lemma SmcCausalIff(c: Smc, bars: seq<Bar>, m: nat, i: nat)
    requires i < m <= |bars|
    ensures SmcDecide(c, bars[..m], i) == SmcDecide(c, bars, i) <==> !LateFill(c, bars, m, i)
  {
    hide RetracePlan, MarketPlan;
    TrailingPrefix(bars, i, c.win, m);
    var p := c.evaluate(Trailing(bars, i, c.win), Some(c.htf[..ClosedBy(c.htf, bars[i].epoch)]));
    if p.Some? && p.value.limit.Some? {
      PlanKeepsOrder(c, p.value);
    }
  }

  lemma PlanKeepsOrder(c: Smc, p: Playbook)
    requires p.limit.Some?
    ensures
      var plan := RetracePlan(c.slBufferAtr, c.tpRr, p);
      plan.side == p.side && plan.entry == p.limit.value
  {
  }

  /** The first bar that the scan visits, before m, whose limit is first filled at m or later. */
  function FirstLate(c: Smc, bars: seq<Bar>, r: Rules, m: nat, i: nat): Option<nat>
    requires m <= |bars|
    decreases m - i
  {
    if i + 1 >= m then None
    else if LateFill(c, bars, m, i) then Some(i)
    else
      var d := SmcDecide(c, bars, i);
      if !d.Enter? then FirstLate(c, bars, r, m, i + 1)
      else
        var x := FirstExit(bars, d.plan, i + d.delay, r, i + d.delay + 1);
        if x.None? || x.value >= m then None else FirstLate(c, bars, r, m, x.value + 1)
  }

  /** What the replay of the first m bars records beyond the full one: everything after the
      bar whose limit the full replay was still waiting on. */
  function Extra(c: Smc, bars: seq<Bar>, r: Rules, m: nat, i: nat): seq<Trade>
    requires m <= |bars|
  {
    var late := FirstLate(c, bars, r, m, i);
    if late.None? then [] else TradesFrom(SmcRule(c), bars[..m], r, late.value + 1)
  }

  lemma LateDecision(c: Smc, bars: seq<Bar>, m: nat, i: nat)
    requires i < m <= |bars| && LateFill(c, bars, m, i)
    ensures SmcDecide(c, bars[..m], i) == NotEntered
    ensures SmcDecide(c, bars, i).Enter? && i + SmcDecide(c, bars, i).delay >= m
  {
    hide RetracePlan, MarketPlan, FirstFill;
    TrailingPrefix(bars, i, c.win, m);
    var p := c.evaluate(Trailing(bars, i, c.win), Some(c.htf[..ClosedBy(c.htf, bars[i].epoch)])).value;
    PlanKeepsOrder(c, p);
  }

  lemma LateEntry(c: Smc, bars: seq<Bar>, r: Rules, m: nat, i: nat)
    requires i + 1 < m <= |bars| && LateFill(c, bars, m, i)
    ensures EndedBefore(TradesFrom(SmcRule(c), bars, r, i), m) == []
  {
    hide SmcDecide, LateFill, FirstExit, ExitAt, TradeOf;
    LateDecision(c, bars, m, i);
    var d := SmcDecide(c, bars, i);
    var x := FirstExit(bars, d.plan, i + d.delay, r, i + d.delay + 1);
    if x.Some? {
      var exit := ExitAt(bars, d.plan, i + d.delay, r, x.value).value;
      TradeFields(d.plan, i + d.delay, r, x.value, exit);
    }
  }

  lemma ExtraSteps(c: Smc, bars: seq<Bar>, r: Rules, m: nat, i: nat)
    requires i + 1 < m <= |bars|
    ensures
      var d, extra := SmcDecide(c, bars, i), Extra(c, bars, r, m, i);
      if LateFill(c, bars, m, i) then extra == TradesFrom(SmcRule(c), bars[..m], r, i + 1)
      else if !d.Enter? then extra == Extra(c, bars, r, m, i + 1)
      else
        var x := FirstExit(bars, d.plan, i + d.delay, r, i + d.delay + 1);
        extra == if x.Some? && x.value < m then Extra(c, bars, r, m, x.value + 1) else []
  {
    hide SmcDecide, LateFill, FirstExit, TradesFrom;
  }

  lemma NoExtra(c: Smc, bars: seq<Bar>, r: Rules, m: nat, i: nat)
    requires m <= |bars| && i + 1 >= m
    ensures Extra(c, bars, r, m, i) == []
  {
  }

  lemma TradesSkip(rule: Rule, bars: seq<Bar>, r: Rules, i: nat)
    requires i + 1 < |bars| && !rule(bars, i).Enter?
    ensures TradesFrom(rule, bars, r, i) == TradesFrom(rule, bars, r, i + 1)
  {
  }

  /** The prefix records what the full run had finished by m, and its extra trades. */
  lemma {:induction false} PrefixTrades(c: Smc, bars: seq<Bar>, r: Rules, m: nat, i: nat)
    requires m <= |bars|
    ensures TradesFrom(SmcRule(c), bars[..m], r, i)
            == EndedBefore(TradesFrom(SmcRule(c), bars, r, i), m) + Extra(c, bars, r, m, i)
    decreases m - i
  {
    hide SmcDecide, LateFill, FirstExit, ExitAt, TradeOf, EndedBefore, Extra, TradesFrom;
    var rule := SmcRule(c);
    if i + 1 >= m {
      NoExtra(c, bars, r, m, i);
      LateTradesEndLate(rule, bars, r, m, i);
      NoTradesLeft(rule, bars[..m], r, i);
      return;
    }
    ExtraSteps(c, bars, r, m, i);
    if LateFill(c, bars, m, i) {
      LateDecision(c, bars, m, i);
      LateEntry(c, bars, r, m, i);
      TradesSkip(rule, bars[..m], r, i);
      return;
    }
    SmcCausalIff(c, bars, m, i);
    var d := rule(bars, i);
    assert rule(bars[..m], i) == d;
    if !d.Enter? {
      TradesSkip(rule, bars, r, i);
      TradesSkip(rule, bars[..m], r, i);
      PrefixTrades(c, bars, r, m, i + 1);
    } else {
      CausalEntry(rule, bars, r, m, i);
      var x := FirstExit(bars, d.plan, i + d.delay, r, i + d.delay + 1);
      if x.Some? && x.value < m {
        PrefixTrades(c, bars, r, m, x.value + 1);
      }
    }
  }

  lemma NoTradesLeft(rule: Rule, bars: seq<Bar>, r: Rules, i: nat)
    requires i + 1 >= |bars|
    ensures TradesFrom(rule, bars, r, i) == []
  {
  }

  /** A run is causal at m if and only if the prefix records no trade after the first visited
      bar whose limit is filled across m; in market mode always. */
  lemma SmcIsCausalIff(c: Smc, bars: seq<Bar>, r: Rules, win: nat, m: nat)
    requires m <= |bars|
    ensures RunAll(SmcRule(c), bars[..m], r, win).trades == EndedBefore(RunAll(SmcRule(c), bars, r, win).trades, m)
            <==> Extra(c, bars, r, m, win) == []
    ensures !c.retrace ==> FirstLate(c, bars, r, m, win) == None
  {
    hide SmcDecide, TradesFrom, FirstLate;
    RunTrades(SmcRule(c), bars, r, win);
    RunTrades(SmcRule(c), bars[..m], r, win);
    PrefixTrades(c, bars, r, m, win);
    if !c.retrace {
      NeverLate(c, bars, r, m, win);
    }
  }

  lemma {:induction false} NeverLate(c: Smc, bars: seq<Bar>, r: Rules, m: nat, i: nat)
    requires m <= |bars| && !c.retrace
    ensures FirstLate(c, bars, r, m, i) == None
    decreases m - i
  {
    hide SmcDecide, FirstExit;
    if i + 1 < m {
      var d := SmcDecide(c, bars, i);
      if !d.Enter? {
        NeverLate(c, bars, r, m, i + 1);
      } else {
        var x := FirstExit(bars, d.plan, i + d.delay, r, i + d.delay + 1);
        if x.Some? && x.value < m { NeverLate(c, bars, r, m, x.value + 1); }
      }
    }
  }

  // ----- a run that shows it -----

  function DemoBar(high: real, low: real, volume: real): Bar {
    Bar(0, 100.0, high, low, 100.0, volume)
  }

  /** A quiet warm-up, two signals, the near limit's fill and target, then the far limit's fill. */
  function DemoBars(win: nat): (bars: seq<Bar>)
    ensures |bars| == win + 5
  {
    seq(win, _ => DemoBar(100.5, 99.5, 0.0))
    + [DemoBar(100.5, 99.5, 1.0), DemoBar(100.5, 99.5, 2.0),
       DemoBar(100.5, 99.5, 0.0), DemoBar(101.5, 99.5, 0.0), DemoBar(100.5, 49.0, 0.0)]
  }

  /** A far limit on the bar marked 1, a near one on the bar marked 2. */
  function DemoEvaluate(window: seq<Bar>, htf: Option<seq<HtfBar>>): Option<Playbook> {
    if window == [] then None
    else
      var v := window[|window| - 1].volume;
      if v == 1.0 then Some(Playbook(Long, 100.0, 0.0, 0.0, Some(50.0), 49.5, 1.0))
      else if v == 2.0 then Some(Playbook(Long, 100.0, 0.0, 0.0, Some(100.0), 99.0, 1.0))
      else None
  }

  function DemoSmc(win: nat): Smc {
    Smc(DemoEvaluate, seq(30, _ => HtfBar(0, 0.0, 0.0, 0.0)), win, true, 8, 1.0, 0.0)
  }

  lemma DemoDecisions(win: nat)
    requires win > 0
    ensures
      var c, bars := DemoSmc(win), DemoBars(win);
      && SmcDecide(c, bars, win).Enter? && SmcDecide(c, bars, win).delay == 4
      && SmcDecide(c, bars[..win + 4], win) == NotEntered
      && SmcDecide(c, bars[..win + 4], win + 1) == Enter(1, Plan(Long, 100.0, 99.0, Some(101.0), 1.0))
  {
    var c, bars := DemoSmc(win), DemoBars(win);
    var early := bars[..win + 4];
    TrailingPrefix(bars, win, win, win + 4);
    TrailingPrefix(bars, win + 1, win, win + 4);
    assert bars[win].volume == 1.0 && bars[win + 1].volume == 2.0;
    assert ClosedBy(c.htf, 0) == 30;
    FirstFillAt(bars, 50.0, win + 1, win + 4, win + 5);
    FirstFillAt(early, 100.0, win + 2, win + 2, win + 4);
  }

  lemma FirstFillAt(bars: seq<Bar>, limit: real, j: nat, at: nat, stop: nat)
    requires j <= at < stop <= |bars| && bars[at].low <= limit
    requires forall k :: j <= k < at ==> bars[k].low > limit
    ensures FirstFill(bars, Long, limit, j, stop) == Some(at)
  {
  }

  /** In retrace mode, with any warm-up, the run of a prefix can record a trade that the full
      run never makes. */
  lemma RetraceIsNotCausal(r: Rules, win: nat)
    requires r.leverage == 1 && r.maxHold == 100 && win > 0
    ensures
      var rule, bars := SmcRule(DemoSmc(win)), DemoBars(win);
      |RunAll(rule, bars[..win + 4], r, win).trades| == 1 && RunAll(rule, bars, r, win).trades == []
  {
    hide SmcDecide, TradeOf, DemoEvaluate, RunAll;
    var rule, bars := SmcRule(DemoSmc(win)), DemoBars(win);
    var early := bars[..win + 4];
    var p := Plan(Long, 100.0, 99.0, Some(101.0), 1.0);
    DemoDecisions(win);
    RunTrades(rule, bars, r, win);
    RunTrades(rule, early, r, win);
    assert rule(early, win) == NotEntered && rule(early, win + 1) == Enter(1, p);
    assert ExitAt(early, p, win + 2, r, win + 3).Some?;
    assert FirstExit(early, p, win + 2, r, win + 3) == Some(win + 3);
    assert TradesFrom(rule, early, r, win + 4) == [];
    assert |TradesFrom(rule, early, r, win + 1)| == 1;
    assert rule(bars, win).delay == 4 && FirstExit(bars, rule(bars, win).plan, win + 4, r, win + 5) == None;
  }
}
