/** Which trades a run records, and how much each may win or lose: for every run of the
    four engines. */
module EngineBounds {
  import opened Wrappers
  import opened Reals
  import opened Replay
  import opened Engines
  import opened ReplayTheorems

  // ----- the trades are those of the rule, and all of them -----

  /** Bar b is the first from j on, short of the last bar, at which the rule enters. */
  ghost predicate IsFirstEntry(rule: Rule, bars: seq<Bar>, j: nat, b: nat) {
    && j <= b && b + 1 < |bars| && rule(bars, b).Enter?
    && forall k: nat {:trigger rule(bars, k)} :: j <= k < b ==> !rule(bars, k).Enter?
  }

  /** The trade is the plan of the first entering bar from j on. */
  ghost predicate Enters(rule: Rule, bars: seq<Bar>, j: nat, t: Trade) {
    exists b: nat {:trigger IsFirstEntry(rule, bars, j, b)} ::
      IsFirstEntry(rule, bars, j, b) && t.plan == rule(bars, b).plan && t.entryIdx == b + rule(bars, b).delay
  }

  /** No further entry from j on that the bars also bring to an exit. */
  ghost predicate Exhausted(rule: Rule, bars: seq<Bar>, r: Rules, j: nat) {
    forall b: nat {:trigger IsFirstEntry(rule, bars, j, b)} :: IsFirstEntry(rule, bars, j, b) ==>
      var d := rule(bars, b);
      FirstExit(bars, d.plan, b + d.delay, r, b + d.delay + 1) == None
  }

  /** Each trade is entered at the first entering bar after the exit before it, and is left
      where the bars say; none is left over. */
  ghost predicate FollowsRule(rule: Rule, bars: seq<Bar>, r: Rules, i: nat, ts: seq<Trade>)
    decreases |ts|
  {
    if ts == [] then Exhausted(rule, bars, r, i)
    else
      && Enters(rule, bars, i, ts[0]) && Genuine(bars, r, 0, ts[0])
      && FollowsRule(rule, bars, r, ts[0].exitIdx + 1, ts[1..])
  }

  /** A bar that does not enter may be skipped. */
  lemma SkipBar(rule: Rule, bars: seq<Bar>, r: Rules, i: nat, j: nat, t: Trade)
    requires j == i + 1 < |bars| && !rule(bars, i).Enter?
    ensures Exhausted(rule, bars, r, i) <==> Exhausted(rule, bars, r, j)
    ensures Enters(rule, bars, i, t) <==> Enters(rule, bars, j, t)
  {
    forall b: nat
      ensures IsFirstEntry(rule, bars, i, b) <==> IsFirstEntry(rule, bars, j, b)
    {
    }
    hide IsFirstEntry;
    if Enters(rule, bars, i, t) {
      var b: nat :| IsFirstEntry(rule, bars, i, b) && t.plan == rule(bars, b).plan
                    && t.entryIdx == b + rule(bars, b).delay;
      assert IsFirstEntry(rule, bars, j, b);
    }
  }

  /** At an entering bar the entry, and so the trade, is determined. */
  lemma EntersHere(rule: Rule, bars: seq<Bar>, r: Rules, i: nat, t: Trade)
    requires i + 1 < |bars| && rule(bars, i).Enter?
    ensures
      var d := rule(bars, i);
      var x := FirstExit(bars, d.plan, i + d.delay, r, i + d.delay + 1);
      && (Exhausted(rule, bars, r, i) <==> x.None?)
      && (Enters(rule, bars, i, t) && Genuine(bars, r, 0, t) <==>
            x.Some? && t == TradeOf(d.plan, i + d.delay, r, x.value,
                                    ExitAt(bars, d.plan, i + d.delay, r, x.value).value))
  {
    hide FirstExit, ExitAt;
    assert IsFirstEntry(rule, bars, i, i);
    assert forall b: nat :: IsFirstEntry(rule, bars, i, b) ==> b == i;
  }

  lemma NoEntryLeft(rule: Rule, bars: seq<Bar>, r: Rules, i: nat, t: Trade)
    requires i + 1 >= |bars|
    ensures Exhausted(rule, bars, r, i) && !Enters(rule, bars, i, t)
  {
  }

  /** A run records exactly these trades: it misses no entry and makes up none. */
  lemma {:induction false} RunFollowsRule(rule: Rule, bars: seq<Bar>, r: Rules, i: nat, ts: seq<Trade>)
    ensures FollowsRule(rule, bars, r, i, ts) <==> ts == TradesFrom(rule, bars, r, i)
    decreases |bars| - i
  {
    hide Enters, Genuine, Exhausted, FirstExit, ExitAt, TradeOf;
    var first := if ts == [] then SomeTrade() else ts[0];
    if i + 1 >= |bars| {
      NoEntryLeft(rule, bars, r, i, first);
    } else if !rule(bars, i).Enter? {
      SkipBar(rule, bars, r, i, i + 1, first);
      RunFollowsRule(rule, bars, r, i + 1, ts);
    } else {
      EntersHere(rule, bars, r, i, first);
      var d := rule(bars, i);
      var x := FirstExit(bars, d.plan, i + d.delay, r, i + d.delay + 1);
      if x.Some? && ts != [] {
        RunFollowsRule(rule, bars, r, x.value + 1, ts[1..]);
        TradeFields(d.plan, i + d.delay, r, x.value, ExitAt(bars, d.plan, i + d.delay, r, x.value).value);
        assert ts == [ts[0]] + ts[1..];
      }
    }
  }

  function SomeTrade(): Trade {
    Trade(Plan(Long, 1.0, 0.0, None, 0.0), 0, 0, Exit(0.0, TimeStop), 0.0, None)
  }

  /** Every trade of a run comes of some decision of the rule. */
  lemma {:induction false} TradeOfRule(rule: Rule, bars: seq<Bar>, r: Rules, i: nat, k: nat) returns (b: nat)
    requires k < |TradesFrom(rule, bars, r, i)|
    ensures
      var t := TradesFrom(rule, bars, r, i)[k];
      && Genuine(bars, r, 0, t) && b < |bars| && rule(bars, b).Enter?
      && t.plan == rule(bars, b).plan && t.entryIdx == b + rule(bars, b).delay
    decreases |bars| - i
  {
    hide FirstExit, ExitAt, TradeOf;
    var d := rule(bars, i);
    if !d.Enter? {
      b := TradeOfRule(rule, bars, r, i + 1, k);
    } else {
      var x := FirstExit(bars, d.plan, i + d.delay, r, i + d.delay + 1);
      if k == 0 {
        b := i;
        TradeFields(d.plan, i + d.delay, r, x.value, ExitAt(bars, d.plan, i + d.delay, r, x.value).value);
      } else {
        b := TradeOfRule(rule, bars, r, x.value + 1, k - 1);
      }
    }
  }

  // ----- the engines' own plans are bracketed -----

  lemma {:induction false} WindowHoldsLast(bars: seq<Bar>, lo: nat, hi: nat)
    requires lo < hi <= |bars|
    ensures MinLow(bars, lo, hi) <= bars[hi - 1].low && MaxHigh(bars, lo, hi) >= bars[hi - 1].high
  {
  }

  lemma MtaBracketed(c: Mta, isLong: bool, entry: Positive, swing: real)
    requires c.tpR >= 0.0 && if isLong then swing <= entry else swing >= entry
    ensures
      var p := MtaPlan(c.tpR, c.minStopFrac, isLong, entry, swing);
      Bracketed(p, c.tpR) && p.risk >= entry * c.minStopFrac && (c.minStopFrac > 0.0 ==> p.risk > 0.0)
  {
    assert c.minStopFrac > 0.0 ==> entry * c.minStopFrac > 0.0;
    var p := MtaPlan(c.tpR, c.minStopFrac, isLong, entry, swing);
    assert p.risk >= 0.0;
    assert c.tpR * p.risk >= 0.0;
  }

  /** The swing window holds the entry bar, so its extreme is never past the entry. */
  lemma MtaEntryBracketed(c: Mta, bars: seq<Bar>, b: nat)
    requires b < |bars| && bars[b].WellFormed() && c.tpR >= 0.0 && MtaDecide(c, bars, b).Enter?
    ensures
      var p := MtaDecide(c, bars, b).plan;
      Bracketed(p, c.tpR) && (c.minStopFrac > 0.0 ==> p.risk > 0.0)
  {
    hide MtaPlan, MinLow, MaxHigh, Bracketed;
    var lo := b + 1 - c.swingLookback;
    WindowHoldsLast(bars, lo, b + 1);
    MtaBracketed(c, true, bars[b].close, MinLow(bars, lo, b + 1));
    MtaBracketed(c, false, bars[b].close, MaxHigh(bars, lo, b + 1));
  }

  lemma Smc5cBracketed(c: Smc5c, isLong: bool, entry: Positive)
    requires c.slPct > 0.0 && c.tpPct >= 0.0
    ensures Bracketed(Smc5cPlan(c.tpPct, c.slPct, isLong, entry), c.tpPct / c.slPct)
    ensures Smc5cPlan(c.tpPct, c.slPct, isLong, entry).risk / entry == c.slPct
  {
    var p := Smc5cPlan(c.tpPct, c.slPct, isLong, entry);
    assert entry * c.slPct > 0.0;
    assert p.risk == entry * c.slPct;
    assert c.tpPct / c.slPct * p.risk == entry * c.tpPct by {
      assert c.tpPct / c.slPct * c.slPct == c.tpPct;
      assert c.tpPct / c.slPct * (entry * c.slPct) == entry * (c.tpPct / c.slPct * c.slPct);
    }
  }

  lemma RetraceBracketed(c: Smc, p: Playbook)
    requires p.limit.Some? && p.atr >= 0.0 && c.tpRr >= 0.0
    ensures Bracketed(RetracePlan(c.slBufferAtr, c.tpRr, p), c.tpRr)
  {
    var plan := RetracePlan(c.slBufferAtr, c.tpRr, p);
    assert plan.risk >= 0.0;
    assert c.tpRr * plan.risk >= 0.0;
  }

  // ----- hence every run of an engine is bracketed -----

  predicate AllWellFormed(bars: seq<Bar>) {
    forall k :: 0 <= k < |bars| ==> bars[k].WellFormed()
  }

  /** The trade ends within [-1, tpR] risks, and unliquidated if its stop is no further away
      than 1/leverage. */
  predicate Contained(r: Rules, t: Trade, tpR: real) {
    && (t.pnlR.Some? ==> -1.0 <= t.pnlR.value <= tpR)
    && (t.plan.risk / t.plan.entry <= r.LiqFrac() ==> !t.exit.reason.Liquidation?)
  }

  lemma BracketContains(bars: seq<Bar>, r: Rules, t: Trade, tpR: real)
    requires AllWellFormed(bars) && Genuine(bars, r, 0, t) && Bracketed(t.plan, tpR)
    ensures Contained(r, t, tpR)
    ensures t.pnlR.Some? <==> t.plan.risk > 0.0
  {
    hide FirstExit, ExitAt, Bracketed, Rules.LiqFrac;
    assert bars[t.exitIdx].WellFormed();
    PnlWithinBracket(bars, r, 0, t, tpR);
    if t.plan.risk / t.plan.entry <= r.LiqFrac() {
      NoLiquidationInsideStop(bars, r, 0, t, tpR);
    }
  }

  /** Every run of the alignment engine. */
  lemma MtaRunContained(c: Mta, bars: seq<Bar>, r: Rules, win: nat, k: nat)
    requires AllWellFormed(bars) && c.tpR >= 0.0
    requires k < |RunAll(MtaRule(c), bars, r, win).trades|
    ensures
      var t := RunAll(MtaRule(c), bars, r, win).trades[k];
      Contained(r, t, c.tpR) && (c.minStopFrac > 0.0 ==> t.pnlR.Some?)
  {
    hide RunFrom, TradesFrom, Genuine, Bracketed, Contained, MtaPlan;
    RunTrades(MtaRule(c), bars, r, win);
    var t := RunAll(MtaRule(c), bars, r, win).trades[k];
    var b := TradeOfRule(MtaRule(c), bars, r, win, k);
    MtaEntryBracketed(c, bars, b);
    BracketContains(bars, r, t, c.tpR);
  }

  /** Every run of the five-condition engine; a stop of at most 1/leverage is never liquidated. */
  lemma Smc5cRunContained(c: Smc5c, bars: seq<Bar>, r: Rules, win: nat, k: nat)
    requires AllWellFormed(bars) && c.slPct > 0.0 && c.tpPct >= 0.0
    requires k < |RunAll(Smc5cRule(c), bars, r, win).trades|
    ensures
      var t := RunAll(Smc5cRule(c), bars, r, win).trades[k];
      && Contained(r, t, c.tpPct / c.slPct) && t.pnlR.Some?
      && (c.slPct <= r.LiqFrac() ==> !t.exit.reason.Liquidation?)
  {
    hide RunFrom, TradesFrom, Genuine, Bracketed, Smc5cPlan, Rules.LiqFrac;
    RunTrades(Smc5cRule(c), bars, r, win);
    var t := RunAll(Smc5cRule(c), bars, r, win).trades[k];
    var b := TradeOfRule(Smc5cRule(c), bars, r, win, k);
    var d := Smc5cDecide(c, bars, b);
    assert d.Enter?;
    Smc5cBracketed(c, d.plan.side.Long?, bars[b].close);
    Smc5cEntry(c, bars, b);
    BracketContains(bars, r, t, c.tpPct / c.slPct);
  }

  lemma Smc5cEntry(c: Smc5c, bars: seq<Bar>, b: nat)
    requires b < |bars| && Smc5cDecide(c, bars, b).Enter?
    ensures
      var p := Smc5cDecide(c, bars, b).plan;
      p == Smc5cPlan(c.tpPct, c.slPct, p.side.Long?, bars[b].close) && p.entry == bars[b].close
  {
  }

  /** Every run in retrace mode whose setups report an ATR that is not negative. */
  lemma RetraceRunContained(c: Smc, bars: seq<Bar>, r: Rules, win: nat, k: nat)
    requires AllWellFormed(bars) && c.retrace && c.tpRr >= 0.0
    requires forall w, h :: c.evaluate(w, h).Some? ==> c.evaluate(w, h).value.atr >= 0.0
    requires k < |RunAll(SmcRule(c), bars, r, win).trades|
    ensures Contained(r, RunAll(SmcRule(c), bars, r, win).trades[k], c.tpRr)
  {
    hide RunFrom, TradesFrom, Genuine, Bracketed, Contained, RetracePlan, FirstFill;
    RunTrades(SmcRule(c), bars, r, win);
    var t := RunAll(SmcRule(c), bars, r, win).trades[k];
    var b := TradeOfRule(SmcRule(c), bars, r, win, k);
    var p := c.evaluate(Trailing(bars, b, c.win), Some(c.htf[..ClosedBy(c.htf, bars[b].epoch)])).value;
    assert t.plan == RetracePlan(c.slBufferAtr, c.tpRr, p);
    RetraceBracketed(c, p);
    BracketContains(bars, r, t, c.tpRr);
  }
}
