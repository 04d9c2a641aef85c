/** What the engines read of their higher timeframes, which they keep or drop by their whole
    length, bars still to come included; and whole runs with bars and feeds cut together. */
module FrameTheorems {
  import opened Wrappers
  import opened Reals
  import opened Replay
  import opened Engines
  import opened ReplayTheorems
  import opened EngineTheorems

  // ----- what had closed -----

  /** The clipped index names a bar that has closed if and only if any bar has. */
  lemma ClippedIndexClosedIff(htf: seq<HtfBar>, t: int)
    requires htf != []
    ensures htf[ClippedIndex(htf, t)].epoch <= t <==> exists k :: 0 <= k < |htf| && htf[k].epoch <= t
  {
    var n := ClosedBy(htf, t);
    if n > 0 {
      assert htf[n - 1].epoch <= t;
    }
  }

  predicate Sorted(htf: seq<HtfBar>) {
    forall j, k :: 0 <= j < k < |htf| ==> htf[j].epoch <= htf[k].epoch
  }

  /** Two feeds that agree on what had closed by t. */
  predicate AgreeUntil(a: seq<HtfBar>, b: seq<HtfBar>, t: int) {
    a[..ClosedBy(a, t)] == b[..ClosedBy(b, t)]
  }

  lemma {:induction false} ClosedByUnique(htf: seq<HtfBar>, t: int, n: nat)
    requires Sorted(htf) && n <= |htf|
    requires (n > 0 ==> htf[n - 1].epoch <= t) && forall k :: n <= k < |htf| ==> htf[k].epoch > t
    ensures ClosedBy(htf, t) == n
    decreases |htf|
  {
    if n < |htf| {
      ClosedByUnique(htf[..|htf| - 1], t, n);
    }
  }

  /** A feed that had too few bars closed goes on, or not, to be long enough. */
  lemma OtherLengths(f: seq<HtfBar>, t: int, least: nat) returns (short: seq<HtfBar>, long: seq<HtfBar>)
    requires ClosedBy(f, t) < least
    ensures |short| < least && AgreeUntil(f, short, t) && short == f[..ClosedBy(f, t)]
    ensures |long| == least && AgreeUntil(f, long, t) && short <= long
  {
    var n := ClosedBy(f, t);
    short := f[..n];
    long := short + seq(least - n, _ => HtfBar(t + 1, 0.0, 0.0, 0.0));
    assert long[..n] == short;
  }

  // ----- cutting a feed -----

  function Cut(htf: seq<HtfBar>, t: int): seq<HtfBar> {
    htf[..ClosedBy(htf, t)]
  }

  /** The bars come in time order as far as the m-th. */
  predicate InOrder(bars: seq<Bar>, m: nat) {
    0 < m <= |bars| && forall k :: 0 <= k < m ==> bars[k].epoch <= bars[m - 1].epoch
  }

  lemma CutAgrees(htf: seq<HtfBar>, t: int, t': int)
    requires Sorted(htf) && t' <= t
    ensures Sorted(Cut(htf, t)) && AgreeUntil(htf, Cut(htf, t), t')
  {
  }

  function CutFrame(f: Option<seq<HtfBar>>, t: int): Option<seq<HtfBar>> {
    if f.None? then None else Some(Cut(f.value, t))
  }

  predicate SortedFrame(f: Option<seq<HtfBar>>) {
    f.Some? ==> Sorted(f.value)
  }

  /** Cut at t the feed is still long enough, if it ever was. */
  predicate Keeps(f: Option<seq<HtfBar>>, least: nat, t: int) {
    f.None? || |f.value| < least || ClosedBy(f.value, t) >= least
  }

  // ----- the sweep and SMC engines: a slice of closed bars -----

  /** What the sweep engine hands to evaluate depends only on what had closed if and only if
      as many bars had closed as it asks for in all. */
  lemma LswReadIff(f: seq<HtfBar>, t: int)
    ensures (forall g :: AgreeUntil(f, g, t) ==> LswFrame(Some(g), t) == LswFrame(Some(f), t))
            <==> ClosedBy(f, t) >= 30
  {
    if ClosedBy(f, t) >= 30 {
      forall g | AgreeUntil(f, g, t)
        ensures LswFrame(Some(g), t) == LswFrame(Some(f), t)
      {
      }
    } else {
      var short, long := OtherLengths(f, t, 30);
      assert LswFrame(Some(short), t).None? && LswFrame(Some(long), t).Some?;
    }
  }

  /** Between feeds of which both are long enough, or neither, the sweep decisions depend only
      on what had closed. */
  lemma HtfIsCausal(c: Lsw, a: seq<HtfBar>, b: seq<HtfBar>, bars: seq<Bar>, i: nat)
    requires i < |bars| && c.htf == Some(a) && AgreeUntil(a, b, bars[i].epoch)
    requires |a| >= 30 <==> |b| >= 30
    ensures LswDecide(c.(htf := Some(b)), bars, i) == LswDecide(c, bars, i)
  {
    hide Trailing, MarketPlan;
  }

  /** Cut at t, it is the same at an earlier bar exactly when the feed keeps its length. */
  lemma LswCutIff(htf: Option<seq<HtfBar>>, t: int, t': int)
    requires SortedFrame(htf) && t' <= t
    ensures LswFrame(CutFrame(htf, t), t') == LswFrame(htf, t') <==> Keeps(htf, 30, t)
  {
    hide Sorted;
    if htf.Some? {
      CutAgrees(htf.value, t, t');
    }
  }

  /** Replaying the first m bars, with a feed that keeps its length cut where the last of them
      closed, records exactly the trades of the full replay that had ended by then. */
  lemma LswRunIsCausal(c: Lsw, bars: seq<Bar>, r: Rules, win: nat, m: nat)
    requires SortedFrame(c.htf) && InOrder(bars, m) && Keeps(c.htf, 30, bars[m - 1].epoch)
    ensures
      var cut := c.(htf := CutFrame(c.htf, bars[m - 1].epoch));
      RunAll(LswRule(cut), bars[..m], r, win).trades == EndedBefore(RunAll(LswRule(c), bars, r, win).trades, m)
  {
    hide RunAll, TradesFrom, SortedFrame, CutFrame, LswFrame, Trailing, MarketPlan;
    var t, early := bars[m - 1].epoch, bars[..m];
    var rule, rule' := LswRule(c), LswRule(c.(htf := CutFrame(c.htf, t)));
    forall k: nat | k < m
      ensures rule(early, k) == rule'(early, k)
    {
      LswCutIff(c.htf, t, early[k].epoch);
    }
    SameDecisions(rule, rule', early, r, win);
    RunTrades(rule, early, r, win);
    RunTrades(rule', early, r, win);
    LswIsCausal(c, bars, m);
    RunIsCausal(rule, bars, r, win, m);
  }

  /** The SMC engine asks for its 30 bars among the closed ones, so it never depends on more. */
  lemma SmcHtfIsCausal(c: Smc, b: seq<HtfBar>, bars: seq<Bar>, i: nat)
    requires i < |bars| && AgreeUntil(c.htf, b, bars[i].epoch)
    ensures SmcDecide(c.(htf := b), bars, i) == SmcDecide(c, bars, i)
  {
    hide Trailing, MarketPlan, RetracePlan, FirstFill, WaitUntil;
  }

  /** The SMC replay so cut records them too, and only the extra trades of a pending limit. */
  lemma SmcRunIsCausal(c: Smc, bars: seq<Bar>, r: Rules, win: nat, m: nat)
    requires Sorted(c.htf) && InOrder(bars, m)
    ensures
      var cut := c.(htf := Cut(c.htf, bars[m - 1].epoch));
      RunAll(SmcRule(cut), bars[..m], r, win).trades
      == EndedBefore(RunAll(SmcRule(c), bars, r, win).trades, m) + Extra(c, bars, r, m, win)
    ensures !c.retrace ==> Extra(c, bars, r, m, win) == []
  {
    hide SmcDecide, RunAll, TradesFrom, Sorted, AgreeUntil, Cut, FirstLate;
    var early, cut := bars[..m], Cut(c.htf, bars[m - 1].epoch);
    var rule, rule' := SmcRule(c), SmcRule(c.(htf := cut));
    forall k: nat | k < m
      ensures rule(early, k) == rule'(early, k)
    {
      CutAgrees(c.htf, bars[m - 1].epoch, early[k].epoch);
      SmcHtfIsCausal(c, cut, early, k);
    }
    SameDecisions(rule, rule', early, r, win);
    RunTrades(rule, bars, r, win);
    RunTrades(rule', early, r, win);
    PrefixTrades(c, bars, r, m, win);
    if !c.retrace { NeverLate(c, bars, r, m, win); }
  }

  // ----- the five-condition engine -----

  lemma SameUpTo(a: seq<HtfBar>, b: seq<HtfBar>, t: int)
    requires AgreeUntil(a, b, t) && ClosedBy(a, t) > 0
    ensures a != [] && b != [] && ClippedIndex(a, t) == ClippedIndex(b, t) && UpTo(a, t) == UpTo(b, t)
    ensures UpTo(a, t) == a[..ClosedBy(a, t)]
  {
  }

  /** What the conditions read of a frame: nothing, if it is too short. */
  predicate Breaks(f: Option<seq<HtfBar>>, t: int, lookback: nat, dir: int) {
    Usable(f) && BosDir(UpTo(f.value, t), lookback) == dir
  }

  predicate Gapped(f: Option<seq<HtfBar>>, t: int, window: nat, isLong: bool) {
    Usable(f) && FvgRecent(UpTo(f.value, t), window, isLong)
  }

  predicate Trending(f: Option<seq<HtfBar>>, t: int, emaSlow: nat) {
    Usable(f) && ClippedIndex(f.value, t) >= emaSlow + 2
  }

  /** With nothing closed the slice is one open bar, too short to say anything. */
  lemma SliceGap(f: seq<HtfBar>, t: int, window: nat, isLong: bool)
    requires f != []
    ensures FvgRecent(UpTo(f, t), window, isLong) <==> FvgRecent(f[..ClosedBy(f, t)], window, isLong)
  {
  }

  lemma SliceBreak(f: seq<HtfBar>, t: int, lookback: nat, dir: int)
    requires f != [] && dir != 0
    ensures BosDir(UpTo(f, t), lookback) == dir <==> BosDir(f[..ClosedBy(f, t)], lookback) == dir
  {
  }

  /** Whether the gap condition depends only on what had closed: if five bars had, or if those
      that had show no gap. */
  lemma GapReadIff(f: seq<HtfBar>, t: int, window: nat, isLong: bool)
    ensures (forall g :: AgreeUntil(f, g, t) ==>
               (Gapped(Some(g), t, window, isLong) <==> Gapped(Some(f), t, window, isLong)))
            <==> ClosedBy(f, t) >= 5 || !FvgRecent(f[..ClosedBy(f, t)], window, isLong)
  {
    hide FvgRecent, UpTo;
    if ClosedBy(f, t) >= 5 || !FvgRecent(f[..ClosedBy(f, t)], window, isLong) {
      forall g | AgreeUntil(f, g, t)
        ensures Gapped(Some(g), t, window, isLong) <==> Gapped(Some(f), t, window, isLong)
      {
        if f != [] { SliceGap(f, t, window, isLong); }
        if g != [] { SliceGap(g, t, window, isLong); }
      }
    } else {
      var short, long := OtherLengths(f, t, 5);
      SliceGap(long, t, window, isLong);
      assert !Gapped(Some(short), t, window, isLong) && Gapped(Some(long), t, window, isLong);
    }
  }

  /** And the break condition: likewise. */
  lemma BreakReadIff(f: seq<HtfBar>, t: int, lookback: nat, dir: int)
    requires dir != 0
    ensures (forall g :: AgreeUntil(f, g, t) ==>
               (Breaks(Some(g), t, lookback, dir) <==> Breaks(Some(f), t, lookback, dir)))
            <==> ClosedBy(f, t) >= 5 || BosDir(f[..ClosedBy(f, t)], lookback) != dir
  {
    hide BosDir, UpTo;
    if ClosedBy(f, t) >= 5 || BosDir(f[..ClosedBy(f, t)], lookback) != dir {
      forall g | AgreeUntil(f, g, t)
        ensures Breaks(Some(g), t, lookback, dir) <==> Breaks(Some(f), t, lookback, dir)
      {
        if f != [] { SliceBreak(f, t, lookback, dir); }
        if g != [] { SliceBreak(g, t, lookback, dir); }
      }
    } else {
      var short, long := OtherLengths(f, t, 5);
      SliceBreak(long, t, lookback, dir);
      assert !Breaks(Some(short), t, lookback, dir) && Breaks(Some(long), t, lookback, dir);
    }
  }

  /** Frames that are both usable or both not, and then agree on what had closed. */
  predicate SameFeed(a: Option<seq<HtfBar>>, b: Option<seq<HtfBar>>, t: int) {
    if Usable(a) && Usable(b) then AgreeUntil(a.value, b.value, t) else !Usable(a) && !Usable(b)
  }

  lemma SameGap(a: Option<seq<HtfBar>>, b: Option<seq<HtfBar>>, t: int, window: nat, isLong: bool)
    requires SameFeed(a, b, t)
    ensures Gapped(a, t, window, isLong) <==> Gapped(b, t, window, isLong)
  {
    hide FvgRecent, UpTo;
    if Usable(a) {
      SliceGap(a.value, t, window, isLong);
      SliceGap(b.value, t, window, isLong);
    }
  }

  lemma SameBreak(a: Option<seq<HtfBar>>, b: Option<seq<HtfBar>>, t: int, lookback: nat, dir: int)
    requires SameFeed(a, b, t) && dir != 0
    ensures Breaks(a, t, lookback, dir) <==> Breaks(b, t, lookback, dir)
  {
    hide BosDir, UpTo;
    if Usable(a) {
      SliceBreak(a.value, t, lookback, dir);
      SliceBreak(b.value, t, lookback, dir);
    }
  }

  lemma SameTrend(a: Option<seq<HtfBar>>, b: Option<seq<HtfBar>>, t: int, emaSlow: nat)
    requires SameFeed(a, b, t)
    ensures Trending(a, t, emaSlow) <==> Trending(b, t, emaSlow)
    ensures Trending(a, t, emaSlow) ==> UpTo(a.value, t) == UpTo(b.value, t)
  {
    if Usable(a) {
      if ClosedBy(a.value, t) > 0 { SameUpTo(a.value, b.value, t); }
    }
  }

  /** Between frames of which the same are usable, the five-condition engine tells no
      difference but in what had closed: an open bar satisfies none of its conditions. */
  lemma Smc5cHtfIsCausal(c: Smc5c, h4: Option<seq<HtfBar>>, h1: Option<seq<HtfBar>>, m15: Option<seq<HtfBar>>,
                         bars: seq<Bar>, i: nat)
    requires i < |bars|
    requires SameFeed(c.h4, h4, bars[i].epoch) && SameFeed(c.h1, h1, bars[i].epoch)
    requires SameFeed(c.m15, m15, bars[i].epoch)
    ensures Smc5cDecide(c.(h4 := h4, h1 := h1, m15 := m15), bars, i) == Smc5cDecide(c, bars, i)
  {
    hide SameFeed, Usable, Trending, Breaks, Gapped, UpTo, Trailing, Smc5cPlan;
    var t := bars[i].epoch;
    SameTrend(c.h4, h4, t, c.emaSlow);
    SameBreak(c.h1, h1, t, c.bosLookback, 1);
    SameBreak(c.h1, h1, t, c.bosLookback, -1);
    SameGap(c.m15, m15, t, c.fvgWindow, true);
    SameGap(c.m15, m15, t, c.fvgWindow, false);
    Smc5cByConditions(c, bars, i);
    Smc5cByConditions(c.(h4 := h4, h1 := h1, m15 := m15), bars, i);
  }

  /** The decision as its five conditions. */
  lemma Smc5cByConditions(c: Smc5c, bars: seq<Bar>, i: nat)
    requires i < |bars|
    ensures
      var t := bars[i].epoch;
      Smc5cDecide(c, bars, i) ==
        if !Trending(c.h4, t, c.emaSlow) then NoSignal
        else
          var trend := c.trendDir(UpTo(c.h4.value, t));
          var isLong := trend == 1;
          if trend == 0 || !Breaks(c.h1, t, c.bosLookback, if isLong then 1 else -1)
             || !Gapped(c.m15, t, c.fvgWindow, isLong)
             || !c.atrHigh(bars[..i + 1]) || !c.volumeHigh(Trailing(bars, i, c.volWindow))
          then NoSignal else Enter(0, Smc5cPlan(c.tpPct, c.slPct, isLong, bars[i].close))
  {
    hide UpTo, ClippedIndex, Trailing, Smc5cPlan, BosDir, FvgRecent;
  }

  lemma CutFeed(f: Option<seq<HtfBar>>, t: int, t': int)
    requires SortedFrame(f) && t' <= t && Keeps(f, 5, t)
    ensures SameFeed(f, CutFrame(f, t), t')
  {
    hide Sorted, AgreeUntil;
    if f.Some? { CutAgrees(f.value, t, t'); }
  }

  function CutFrames(c: Smc5c, t: int): Smc5c {
    c.(h4 := CutFrame(c.h4, t), h1 := CutFrame(c.h1, t), m15 := CutFrame(c.m15, t))
  }

  predicate AllKeep(c: Smc5c, t: int) {
    Keeps(c.h4, 5, t) && Keeps(c.h1, 5, t) && Keeps(c.m15, 5, t)
  }

  /** A run without one of its frames records nothing. */
  lemma {:induction false} UnusableRecordsNothing(c: Smc5c, bars: seq<Bar>, r: Rules, i: nat)
    requires !Usable(c.h4) || !Usable(c.h1) || !Usable(c.m15)
    ensures TradesFrom(Smc5cRule(c), bars, r, i) == []
    decreases |bars| - i
  {
    if i + 1 < |bars| { UnusableRecordsNothing(c, bars, r, i + 1); }
  }

  lemma KeptRunIsCausal(c: Smc5c, bars: seq<Bar>, r: Rules, win: nat, m: nat)
    requires SortedFrame(c.h4) && SortedFrame(c.h1) && SortedFrame(c.m15) && InOrder(bars, m)
    requires AllKeep(c, bars[m - 1].epoch)
    ensures RunAll(Smc5cRule(CutFrames(c, bars[m - 1].epoch)), bars[..m], r, win).trades
            == EndedBefore(RunAll(Smc5cRule(c), bars, r, win).trades, m)
  {
    hide Smc5cDecide, RunAll, TradesFrom, SortedFrame, CutFrame, SameFeed, Keeps;
    var t, early := bars[m - 1].epoch, bars[..m];
    var rule, rule' := Smc5cRule(c), Smc5cRule(CutFrames(c, t));
    forall k: nat | k < m
      ensures rule(early, k) == rule'(early, k)
    {
      CutFeed(c.h4, t, early[k].epoch);
      CutFeed(c.h1, t, early[k].epoch);
      CutFeed(c.m15, t, early[k].epoch);
      Smc5cHtfIsCausal(c, CutFrame(c.h4, t), CutFrame(c.h1, t), CutFrame(c.m15, t), early, k);
    }
    SameDecisions(rule, rule', early, r, win);
    RunTrades(rule, early, r, win);
    RunTrades(rule', early, r, win);
    Smc5cIsCausal(c, bars, m);
    RunIsCausal(rule, bars, r, win, m);
  }

  /** The five-condition replay with all frames cut records exactly the trades of the full one
      that had ended by then, if and only if every frame keeps its length or there are none. */
  lemma Smc5cRunIsCausalIff(c: Smc5c, bars: seq<Bar>, r: Rules, win: nat, m: nat)
    requires SortedFrame(c.h4) && SortedFrame(c.h1) && SortedFrame(c.m15) && InOrder(bars, m)
    ensures
      var t, full := bars[m - 1].epoch, EndedBefore(RunAll(Smc5cRule(c), bars, r, win).trades, m);
      RunAll(Smc5cRule(CutFrames(c, t)), bars[..m], r, win).trades == full <==> AllKeep(c, t) || full == []
  {
    hide Smc5cDecide, RunAll, TradesFrom, SortedFrame, EndedBefore;
    var t := bars[m - 1].epoch;
    if AllKeep(c, t) {
      KeptRunIsCausal(c, bars, r, win, m);
    } else {
      UnusableRecordsNothing(CutFrames(c, t), bars[..m], r, win);
      RunTrades(Smc5cRule(CutFrames(c, t)), bars[..m], r, win);
    }
  }

  lemma {:induction false} FewBarsNoTrade(c: Smc5c, bars: seq<Bar>, r: Rules, i: nat)
    requires c.emaSlow >= 2 && (c.bosLookback >= 3 || c.bosLookback == 0)
    requires forall k :: 0 <= k < |bars| ==> FewClosed(c, bars[k].epoch)
    ensures TradesFrom(Smc5cRule(c), bars, r, i) == []
    decreases |bars| - i
  {
    hide Smc5cDecide, FewClosed;
    if i + 1 < |bars| {
      FewBarsNoSignal(c, bars, i);
      FewBarsNoTrade(c, bars, r, i + 1);
    }
  }

  predicate FewClosed(c: Smc5c, t: int) {
    || (c.h4.Some? && ClosedBy(c.h4.value, t) < 5)
    || (c.h1.Some? && ClosedBy(c.h1.value, t) < 5)
    || (c.m15.Some? && ClosedBy(c.m15.value, t) < 3)
  }

  lemma FewBarsNoSignal(c: Smc5c, bars: seq<Bar>, i: nat)
    requires i < |bars| && c.emaSlow >= 2 && (c.bosLookback >= 3 || c.bosLookback == 0)
    requires FewClosed(c, bars[i].epoch)
    ensures Smc5cDecide(c, bars, i) == NoSignal
  {
    hide Trailing, Smc5cPlan;
  }

  /** With a break lookback of 3 or more, as is the default, only a 15m frame of 3 or 4 closed
      bars can be dropped to any effect: in every other case the cut replay is causal. */
  lemma Smc5cRunIsCausal(c: Smc5c, bars: seq<Bar>, r: Rules, win: nat, m: nat)
    requires SortedFrame(c.h4) && SortedFrame(c.h1) && SortedFrame(c.m15) && InOrder(bars, m)
    requires c.emaSlow >= 2 && (c.bosLookback >= 3 || c.bosLookback == 0)
    requires Keeps(c.m15, 5, bars[m - 1].epoch) || ClosedBy(c.m15.value, bars[m - 1].epoch) < 3
    ensures RunAll(Smc5cRule(CutFrames(c, bars[m - 1].epoch)), bars[..m], r, win).trades
            == EndedBefore(RunAll(Smc5cRule(c), bars, r, win).trades, m)
  {
    hide RunAll, TradesFrom, EndedBefore, Smc5cDecide;
    var t, early := bars[m - 1].epoch, bars[..m];
    Smc5cRunIsCausalIff(c, bars, r, win, m);
    if !AllKeep(c, t) {
      forall k | 0 <= k < m
        ensures FewClosed(c, early[k].epoch)
      {
      }
      FewBarsNoTrade(c, early, r, win);
      RunTrades(Smc5cRule(c), early, r, win);
      Smc5cIsCausal(c, bars, m);
      RunIsCausal(Smc5cRule(c), bars, r, win, m);
    }
  }

  // ----- a run whose gap is dropped -----

  function GapFrame(): seq<HtfBar> {
    [HtfBar(-3, 10.0, 9.0, 9.5), HtfBar(-2, 11.5, 9.5, 11.0), HtfBar(-1, 12.0, 11.0, 11.5),
     HtfBar(1, 12.0, 11.0, 11.5), HtfBar(2, 12.0, 11.0, 11.5)]
  }

  function BreakFrame(): seq<HtfBar> {
    seq(6, k => HtfBar(k - 10, 10.0, 9.0, 9.5)) + [HtfBar(-1, 12.0, 9.0, 11.5)]
  }

  function TrendFrame(): seq<HtfBar> {
    seq(203, k => HtfBar(k - 300, 10.0, 9.0, 9.5))
  }

  /** The default settings, with a trend, an ATR and a volume that say yes. */
  function GapSmc5c(): Smc5c {
    Smc5c(Some(TrendFrame()), Some(BreakFrame()), Some(GapFrame()), 200, _ => 1, 5, 10,
          _ => true, _ => true, 200, 0.010, 0.005)
  }

  function GapBars(): (bars: seq<Bar>)
    ensures |bars| == 204
  {
    seq(203, _ => Bar(0, 100.0, 100.4, 99.9, 100.0, 0.0)) + [Bar(0, 100.0, 102.0, 99.9, 101.5, 0.0)]
  }

  lemma TrendCondition()
    ensures Trending(Some(TrendFrame()), 0, 200)
  {
    ClosedByUnique(TrendFrame(), 0, 203);
  }

  lemma BreakCondition()
    ensures Breaks(Some(BreakFrame()), 0, 5, 1)
  {
    var f := BreakFrame();
    ClosedByUnique(f, 0, 7);
    assert UpTo(f, 0) == f;
    BreakHighs(1, 6);
  }

  lemma GapCondition()
    ensures Gapped(Some(GapFrame()), 0, 10, true) && ClosedBy(GapFrame(), 0) == 3
  {
    ClosedByUnique(GapFrame(), 0, 3);
    var slice := UpTo(GapFrame(), 0);
    assert |slice| == 3 && GapAt(slice, 2, true);
  }

  lemma {:induction false} BreakHighs(lo: nat, hi: nat)
    requires lo < hi <= 6
    ensures HtfMaxHigh(BreakFrame(), lo, hi) == 10.0
    decreases hi
  {
    if hi > lo + 1 { BreakHighs(lo, hi - 1); }
  }

  lemma GapDecision()
    ensures Smc5cDecide(GapSmc5c(), GapBars(), 202) == Enter(0, Plan(Long, 100.0, 99.5, Some(101.0), 0.5))
  {
    hide Trending, Breaks, Gapped, TrendFrame, BreakFrame, GapFrame, UpTo;
    TrendCondition();
    BreakCondition();
    GapCondition();
    Smc5cByConditions(GapSmc5c(), GapBars(), 202);
  }

  /** Three of the five 15m bars have closed, with a gap among them; cut there, the frame is
      missing, and the trade that the full run had finished is lost. */
  lemma ThreeBarsLoseTrade(r: Rules)
    requires r.leverage == 1
    ensures
      var c, bars := GapSmc5c(), GapBars();
      && |EndedBefore(RunAll(Smc5cRule(c), bars, r, 202).trades, 204)| == 1
      && RunAll(Smc5cRule(CutFrames(c, bars[203].epoch)), bars[..204], r, 202).trades == []
  {
    hide Smc5cDecide, RunAll, TrendFrame, BreakFrame, GapFrame;
    var c, bars := GapSmc5c(), GapBars();
    var rule, p := Smc5cRule(c), Plan(Long, 100.0, 99.5, Some(101.0), 0.5);
    GapCondition();
    GapDecision();
    RunTrades(rule, bars, r, 202);
    assert ExitAt(bars, p, 202, r, 203).Some?;
    assert FirstExit(bars, p, 202, r, 203) == Some(203);
    assert TradesFrom(rule, bars, r, 204) == [];
    UnusableRecordsNothing(CutFrames(c, 0), bars[..204], r, 202);
    RunTrades(Smc5cRule(CutFrames(c, 0)), bars[..204], r, 202);
  }
}
