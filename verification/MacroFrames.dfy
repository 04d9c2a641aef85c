/** The alignment engine and its macro frames: it reads an average at a clipped index of any
    frame that is long enough in all, so what it reads depends on bars still to come unless
    that many had closed. */
module MacroFrames {
  import opened Wrappers
  import opened Reals
  import opened Replay
  import opened Engines
  import opened ReplayTheorems
  import opened EngineTheorems
  import opened FrameTheorems

  // ----- what is read -----

  /** Frames with one average per bar, equal on the bars closed by t. */
  predicate SameClosed(f: MacroFrame, g: MacroFrame, t: int) {
    && |f.ema| == |f.bars| && |g.ema| == |g.bars| && AgreeUntil(f.bars, g.bars, t)
    && f.ema[..ClosedBy(f.bars, t)] == g.ema[..ClosedBy(g.bars, t)]
  }

  lemma SameMacroEma(f: MacroFrame, g: MacroFrame, emaLen: nat, t: int)
    requires SameClosed(f, g, t) && ClosedBy(f.bars, t) >= emaLen + 2
    ensures MacroEma(Some(f), emaLen, t) == MacroEma(Some(g), emaLen, t)
  {
    SameUpTo(f.bars, g.bars, t);
    var n := ClosedBy(f.bars, t);
    assert f.ema[..n][n - 1] == g.ema[..n][n - 1];
  }

  /** The average read of a frame depends only on what had closed if and only if as many bars
      had closed as the engine asks for in all.  With none closed it is that of an open bar. */
  lemma MacroEmaReadIff(f: MacroFrame, emaLen: nat, t: int)
    requires |f.ema| == |f.bars|
    ensures (forall g :: SameClosed(f, g, t) ==> MacroEma(Some(g), emaLen, t) == MacroEma(Some(f), emaLen, t))
            <==> ClosedBy(f.bars, t) >= emaLen + 2
    ensures ClosedBy(f.bars, t) == 0 && |f.bars| >= emaLen + 2 ==> MacroEma(Some(f), emaLen, t) == Some(f.ema[0])
  {
    hide SameClosed;
    if ClosedBy(f.bars, t) >= emaLen + 2 {
      forall g | SameClosed(f, g, t)
        ensures MacroEma(Some(g), emaLen, t) == MacroEma(Some(f), emaLen, t)
      {
        SameMacroEma(f, g, emaLen, t);
      }
    } else {
      var short, long := OtherFrames(f, emaLen, t);
      assert MacroEma(Some(short), emaLen, t) != MacroEma(Some(long), emaLen, t);
    }
  }

  lemma OtherFrames(f: MacroFrame, emaLen: nat, t: int) returns (short: MacroFrame, long: MacroFrame)
    requires |f.ema| == |f.bars| && ClosedBy(f.bars, t) < emaLen + 2
    ensures SameClosed(f, short, t) && MacroEma(Some(short), emaLen, t) == None
    ensures SameClosed(f, long, t) && MacroEma(Some(long), emaLen, t).Some?
  {
    var n := ClosedBy(f.bars, t);
    var a, b := OtherLengths(f.bars, t, emaLen + 2);
    short := MacroFrame(a, f.ema[..n]);
    long := MacroFrame(b, f.ema[..n] + seq(emaLen + 2 - n, _ => 0.0));
    assert long.ema[..n] == f.ema[..n] && short.ema[..n] == f.ema[..n];
  }

  /** So the decision depends only on what had closed where every frame, if it is not too short
      in both, has that many bars closed. */
  lemma MtaHtfIsCausal(c: Mta, frames: seq<Option<MacroFrame>>, bars: seq<Bar>, i: nat)
    requires i < |bars| && |frames| == |c.frames|
    requires forall k :: 0 <= k < |frames| ==>
      if TooShort(c.frames[k], c.emaLen) || TooShort(frames[k], c.emaLen)
      then TooShort(c.frames[k], c.emaLen) && TooShort(frames[k], c.emaLen)
      else SameClosed(c.frames[k].value, frames[k].value, bars[i].epoch)
           && ClosedBy(c.frames[k].value.bars, bars[i].epoch) >= c.emaLen + 2
    ensures MtaDecide(c.(frames := frames), bars, i) == MtaDecide(c, bars, i)
  {
    hide SameClosed, MacroBias, Engulfs, MtaPlan, MinLow, MaxHigh, ClippedIndex;
    var t := bars[i].epoch;
    forall k | 0 <= k < |frames|
      ensures MacroEma(c.frames[k], c.emaLen, t) == MacroEma(frames[k], c.emaLen, t)
    {
      if !TooShort(c.frames[k], c.emaLen) {
        SameMacroEma(c.frames[k].value, frames[k].value, c.emaLen, t);
      }
    }
    SameAverages(c, frames, bars, i);
  }

  lemma SameAverages(c: Mta, frames: seq<Option<MacroFrame>>, bars: seq<Bar>, i: nat)
    requires i < |bars| && |frames| == |c.frames|
    requires forall k :: 0 <= k < |frames| ==>
      MacroEma(c.frames[k], c.emaLen, bars[i].epoch) == MacroEma(frames[k], c.emaLen, bars[i].epoch)
    ensures MtaDecide(c.(frames := frames), bars, i) == MtaDecide(c, bars, i)
  {
    hide MacroEma, MacroBias, Engulfs, MtaPlan, MinLow, MaxHigh;
    assert MacroEmas(c.frames, c.emaLen, bars[i].epoch) == MacroEmas(frames, c.emaLen, bars[i].epoch);
  }

  function CutMacro(f: Option<MacroFrame>, t: int): Option<MacroFrame> {
    if f.None? then None
    else
      var n := ClosedBy(f.value.bars, t);
      Some(MacroFrame(f.value.bars[..n], if n <= |f.value.ema| then f.value.ema[..n] else f.value.ema))
  }

  /** A frame of one average per bar, in time order. */
  predicate Averaged(f: Option<MacroFrame>) {
    f.Some? ==> |f.value.ema| == |f.value.bars| && Sorted(f.value.bars)
  }

  /** Cut at t the frame is still long enough, if it ever was. */
  predicate KeepsAverage(f: Option<MacroFrame>, emaLen: nat, t: int) {
    TooShort(f, emaLen) || ClosedBy(f.value.bars, t) >= emaLen + 2
  }

  /** The average read of the frame cut at t is the same, at any bar up to there, if and only
      if the frame keeps its length. */
  lemma CutReadIff(f: Option<MacroFrame>, emaLen: nat, t: int, t': int)
    requires Averaged(f) && t' <= t
    ensures MacroEma(CutMacro(f, t), emaLen, t') == MacroEma(f, emaLen, t') <==> KeepsAverage(f, emaLen, t)
  {
    hide Sorted;
  }

  /** The alignment replay, with all its frames cut, records exactly the trades of the full one
      that had ended by then, where every frame keeps its length. */
  lemma MtaRunIsCausal(c: Mta, bars: seq<Bar>, r: Rules, win: nat, m: nat)
    requires InOrder(bars, m)
    requires forall j :: 0 <= j < |c.frames| ==>
      Averaged(c.frames[j]) && KeepsAverage(c.frames[j], c.emaLen, bars[m - 1].epoch)
    ensures RunAll(MtaRule(CutMacros(c, bars[m - 1].epoch)), bars[..m], r, win).trades
            == EndedBefore(RunAll(MtaRule(c), bars, r, win).trades, m)
  {
    hide MtaDecide, RunAll, TradesFrom, CutMacro, MacroEma, Averaged, KeepsAverage;
    var t, early := bars[m - 1].epoch, bars[..m];
    var cut := CutMacros(c, t);
    var rule, rule' := MtaRule(c), MtaRule(cut);
    forall k: nat | k < m
      ensures rule(early, k) == rule'(early, k)
    {
      forall j | 0 <= j < |cut.frames|
        ensures MacroEma(c.frames[j], c.emaLen, early[k].epoch) == MacroEma(cut.frames[j], c.emaLen, early[k].epoch)
      {
        CutReadIff(c.frames[j], c.emaLen, t, early[k].epoch);
      }
      SameAverages(c, cut.frames, early, k);
    }
    SameDecisions(rule, rule', early, r, win);
    RunTrades(rule, early, r, win);
    RunTrades(rule', early, r, win);
    MtaIsCausal(c, bars, m);
    RunIsCausal(rule, bars, r, win, m);
  }

  function CutMacros(c: Mta, t: int): Mta {
    c.(frames := seq(|c.frames|, j requires 0 <= j < |c.frames| => CutMacro(c.frames[j], t)))
  }

  // ----- runs that bars not yet closed turn -----

  /** A frame of 52 bars, the least for an average of 50, closing one a time unit from `start`. */
  function DemoFrame(x: real, start: int): MacroFrame {
    MacroFrame(seq(52, k => HtfBar(start + k, x, x, x)), seq(52, _ => x))
  }

  /** The default settings, with two such frames. */
  function DemoMta(x: real, start: int): Mta {
    Mta([Some(DemoFrame(x, start)), Some(DemoFrame(x, start))], 50, 2, 5, 6, 3.0, 0.0055)
  }

  /** Falling bars, one that breaks out and engulfs, one that reaches any target. */
  function PeekBars(): (bars: seq<Bar>)
    ensures |bars| == 32
  {
    seq(30, _ => Bar(0, 9.5, 9.6, 8.9, 9.0, 0.0))
    + [Bar(0, 8.8, 10.1, 8.7, 10.0, 0.0), Bar(0, 10.0, 100.0, 9.9, 50.0, 0.0)]
  }

  lemma PeekBias(x: real, start: int, t: int)
    ensures MacroBias(10.0, MacroEmas(DemoMta(x, start).frames, 50, t), 2)
            == if x < 10.0 then 1 else if x > 10.0 then -1 else 0
  {
    assert MacroEmas(DemoMta(x, start).frames, 50, t) == [Some(x), Some(x)];
    PresentTwo(x);
  }

  lemma PresentTwo(x: real)
    ensures Present([Some(x), Some(x)]) == [x, x]
  {
    var one: seq<Option<real>> := [Some(x)];
    var two: seq<Option<real>> := [Some(x), Some(x)];
    assert two[..1] == one && one[..0] == [];
    assert Present(one) == [x];
  }

  lemma PeekDecision(x: real, start: int)
    ensures
      var d := MtaDecide(DemoMta(x, start), PeekBars(), 30);
      if x < 10.0 then d == Enter(0, Plan(Long, 10.0, 8.7, Some(13.9), 1.3)) else d == NoSignal
  {
    hide MacroBias, MacroEmas;
    var bars := PeekBars();
    PeekBias(x, start, 0);
    assert bars[30] == Bar(0, 8.8, 10.1, 8.7, 10.0, 0.0) && bars[29] == Bar(0, 9.5, 9.6, 8.9, 9.0, 0.0);
    assert MinLow(bars, 25, 31) == 8.7;
  }

  lemma PeekTrades(x: real, start: int, r: Rules)
    requires r.leverage == 1
    ensures
      var ts := RunAll(MtaRule(DemoMta(x, start)), PeekBars(), r, 30).trades;
      |ts| == (if x < 10.0 then 1 else 0) && (x < 10.0 ==> ts[0].exitIdx == 31)
  {
    hide MtaDecide, RunAll;
    var rule, bars := MtaRule(DemoMta(x, start)), PeekBars();
    var p := Plan(Long, 10.0, 8.7, Some(13.9), 1.3);
    RunTrades(rule, bars, r, 30);
    PeekDecision(x, start);
    assert ExitAt(bars, p, 30, r, 31).Some?;
    assert FirstExit(bars, p, 30, r, 31) == Some(31);
    assert TradesFrom(rule, bars, r, 32) == [] && TradesFrom(rule, bars, r, 31) == [];
  }

  /** No bar of the frames has closed, and their average decides whether the run trades. */
  lemma OpenBarTurnsRun(x: real, r: Rules)
    requires r.leverage == 1
    ensures ClosedBy(DemoFrame(x, 100).bars, 0) == 0
    ensures |RunAll(MtaRule(DemoMta(x, 100)), PeekBars(), r, 30).trades| == if x < 10.0 then 1 else 0
  {
    PeekTrades(x, 100, r);
  }

  /** All but one of the 52 bars have closed when the last bar does; without that one the frames
      are too short, and the trade that the full run had finished is lost. */
  lemma OneBarShortLosesTrade(x: real, r: Rules)
    requires r.leverage == 1 && x < 10.0
    ensures
      var c, bars := DemoMta(x, -50), PeekBars();
      && ClosedBy(DemoFrame(x, -50).bars, bars[31].epoch) == 51
      && |EndedBefore(RunAll(MtaRule(c), bars, r, 30).trades, 32)| == 1
      && RunAll(MtaRule(CutMacros(c, bars[31].epoch)), bars[..32], r, 30).trades == []
  {
    hide RunAll, MtaDecide, TradesFrom, PeekBars;
    var c, bars := DemoMta(x, -50), PeekBars();
    PeekTrades(x, -50, r);
    var cut := CutMacros(c, 0);
    assert bars[..32] == bars;
    RunTrades(MtaRule(cut), bars, r, 30);
    NoAverageNoTrade(cut, bars, r, 30);
  }

  /** With fewer averages than it asks for the engine never trades. */
  lemma {:induction false} NoAverageNoTrade(c: Mta, bars: seq<Bar>, r: Rules, i: nat)
    requires c.minFrames > 0 && forall j :: 0 <= j < |c.frames| ==> TooShort(c.frames[j], c.emaLen)
    ensures TradesFrom(MtaRule(c), bars, r, i) == []
    decreases |bars| - i
  {
    hide MtaDecide;
    if i + 1 < |bars| {
      NoAverageNoSignal(c, bars, i);
      NoAverageNoTrade(c, bars, r, i + 1);
    }
  }

  lemma NoAverageNoSignal(c: Mta, bars: seq<Bar>, i: nat)
    requires c.minFrames > 0 && forall j :: 0 <= j < |c.frames| ==> TooShort(c.frames[j], c.emaLen)
    ensures MtaDecide(c, bars, i) == NoSignal
  {
    hide Engulfs, MtaPlan, MinLow, MaxHigh, ClippedIndex;
    if i < |bars| {
      PresentNone(MacroEmas(c.frames, c.emaLen, bars[i].epoch));
    }
  }

  lemma {:induction false} PresentNone(emas: seq<Option<real>>)
    requires forall k :: 0 <= k < |emas| ==> emas[k].None?
    ensures Present(emas) == []
    decreases |emas|
  {
    if emas != [] { PresentNone(emas[..|emas| - 1]); }
  }
}
