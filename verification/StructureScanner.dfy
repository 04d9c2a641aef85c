/** The chronological scanner: one pass over the candles that confirms swings late,
    flips flags in place and carries a running bias.  Each lettered section of the
    pass is a method; together they arrive at MarketStructure.LedgerOf. */
module StructureScanner {
  import opened Wrappers
  import opened Candles
  import opened MarketStructure

  // ----- A. swing confirmation -----

  method WindowBounds(d: Direction, cs: seq<Candle>, lo: nat, hi: nat) returns (min: real, max: real)
    requires lo < hi <= |cs|
    ensures min == WindowMin(d, cs, lo, hi) && max == WindowMax(d, cs, lo, hi)
  {
    min, max := Level(d, cs[lo]), Level(d, cs[lo]);
    for j := lo + 1 to hi
      invariant min == WindowMin(d, cs, lo, j) && max == WindowMax(d, cs, lo, j)
    {
      var x := Level(d, cs[j]);
      if x < min { min := x; }
      if x > max { max := x; }
    }
  }

  lemma SwingsConfirm(d: Direction, cs: seq<Candle>, w: nat, i: nat)
    requires 2 * w <= i < |cs|
    ensures
      var t := i - w;
      Swings(d, cs, w, i + 1, i) ==
        if IsPivot(d, cs, w, t) then Swings(d, cs, w, i, i) + [Swing(t, Level(d, cs[t]), false, None)]
        else Swings(d, cs, w, i, i)
    ensures forall k :: 0 <= k < |Swings(d, cs, w, i, i)| ==> Swings(d, cs, w, i, i)[k].index < i - w
  {
  }

  /** Candle i confirms the candle w back, when that one is the extreme of its window. */
  method ConfirmSwing(d: Direction, cs: seq<Candle>, w: nat, i: nat, swings: seq<Swing>)
    returns (r: seq<Swing>)
    requires i < |cs|
    requires swings == Swings(d, cs, w, i, i)
    ensures r == Swings(d, cs, w, i + 1, i)
  {
    r := swings;
    if i >= 2 * w {
      SwingsConfirm(d, cs, w, i);
      var t := i - w;
      var min, max := WindowBounds(d, cs, t - w, t + w + 1);
      var extreme := if d.Bullish? then max else min;
      if Level(d, cs[t]) == extreme && min != max
         && !(exists k :: 0 <= k < |swings| && swings[k].index == t) {
        r := swings + [Swing(t, Level(d, cs[t]), false, None)];
      }
    }
  }

  // ----- C. liquidity sweeps -----

  /** The sweeps that candle i adds. */
  method SweepScan(d: Direction, cs: seq<Candle>, w: nat, i: nat, ghost ps: seq<nat>, swings: seq<Swing>)
    returns (found: seq<Sweep>)
    requires i < |cs| && Confirmed(ps, w, i + 1)
    requires swings == SwingsOf(d, cs, w, ps, i)
    ensures found == SweepsAt(d, cs, w, i, ps)
  {
    found := [];
    for k := 0 to |swings|
      invariant found == SweepsAt(d, cs, w, i, ps[..k])
    {
      assert ps[..k + 1][..k] == ps[..k];
      var s := swings[k];
      if !s.broken && i > s.index && Pierces(d, s.price, cs[i]) {
        found := found + [Sweep(i, d.Opposite(), s.index, s.price, Level(d, cs[i]))];
      }
    }
    assert ps[..|swings|] == ps;
  }

  // ----- D. breaks, their tags and their order blocks -----

  method FindOrigin(d: Direction, cs: seq<Candle>, i: nat) returns (r: Option<nat>)
    requires i < |cs|
    ensures r == Origin(d, cs, i + 1)
  {
    var k := i + 1;
    while k > 0
      invariant 0 <= k <= i + 1
      invariant Origin(d, cs, k) == Origin(d, cs, i + 1)
    {
      k := k - 1;
      if Against(d, cs[k]) {
        return Some(k);
      }
    }
    return None;
  }

  predicate HasBlock(blocks: seq<OrderBlock>, index: nat, side: Direction) {
    exists k :: 0 <= k < |blocks| && blocks[k].index == index && blocks[k].side == side
  }

  function FreshBlock(d: Direction, c: Candle, index: nat, formed: nat): OrderBlock {
    OrderBlock(index, formed, d, c.high, c.low, c.open, c.close, false, None)
  }

  lemma EventsGrow(bs: seq<Break>, b: Break)
    ensures Events(bs + [b]) == Events(bs) + [StructureEvent(b, TagAt(bs + [b], |bs|))]
    ensures TagAt(bs + [b], |bs|) == if Bias(bs) == (if b.side.Bullish? then -1 else 1) then CHOCH else BOS
  {
  }

  /** Tag the break, turn the bias, and anchor an order block at the origin of the move. */
  method RecordBreak(d: Direction, cs: seq<Candle>, i: nat, s: Swing, ghost bs: seq<Break>, tape: Tape)
    returns (r: Tape)
    requires i < |cs|
    requires forall j :: 0 <= j < |bs| ==> bs[j].index < |cs|
    requires tape == TapeOf(cs, bs, i)
    ensures r == TapeOf(cs, bs + [Break(i, d, s.index, s.price, cs[i].close)], i)
  {
    var b := Break(i, d, s.index, s.price, cs[i].close);
    var tag := if tape.trendBias == (if d.Bullish? then -1 else 1) then CHOCH else BOS;
    var events := tape.events + [StructureEvent(b, tag)];
    var blocks := tape.orderBlocks;
    var o := FindOrigin(d, cs, i);
    if o.Some? && !HasBlock(blocks, o.value, d) {
      blocks := blocks + [FreshBlock(d, cs[o.value], o.value, i)];
    }
    EventsGrow(bs, b);
    r := Tape(events, blocks, if d.Bullish? then 1 else -1);
  }

  lemma BreaksAtGrow(d: Direction, cs: seq<Candle>, w: nat, i: nat, ps: seq<nat>, k: nat)
    requires i < |cs| && Confirmed(ps, w, i + 1) && k < |ps|
    ensures BreaksAt(d, cs, w, i, ps[..k + 1]) ==
            if BreakIndex(d, cs, w, ps[k], i + 1) == Some(i)
            then BreaksAt(d, cs, w, i, ps[..k]) + [BreakOf(d, cs, i, ps[k])]
            else BreaksAt(d, cs, w, i, ps[..k])
  {
    assert ps[..k + 1][..k] == ps[..k];
  }

  /** One swing against candle i. */
  method BreakSwing(d: Direction, cs: seq<Candle>, w: nat, i: nat, ghost t: nat, ghost bs: seq<Break>,
                    s: Swing, tape: Tape)
    returns (s': Swing, tape': Tape, ghost bs': seq<Break>)
    requires i < |cs| && t + w <= i && t < i
    requires forall j :: 0 <= j < |bs| ==> bs[j].index < |cs|
    requires s == SwingOf(d, cs, w, t, i) && tape == TapeOf(cs, bs, i)
    ensures s' == SwingOf(d, cs, w, t, i + 1)
    ensures bs' == if BreakIndex(d, cs, w, t, i + 1) == Some(i) then bs + [BreakOf(d, cs, i, t)] else bs
    ensures tape' == TapeOf(cs, bs', i)
  {
    s', tape', bs' := s, tape, bs;
    if !s.broken && Fires(BreakTrigger(d, s.price), cs[i]) && i > s.index {
      s' := s.(broken := true, breakIndex := Some(i));
      tape' := RecordBreak(d, cs, i, s, bs, tape);
      bs' := bs + [BreakOf(d, cs, i, t)];
    }
  }

  method BreakScan(d: Direction, cs: seq<Candle>, w: nat, i: nat, ghost ps: seq<nat>, ghost bs: seq<Break>,
                   swings: seq<Swing>, tape: Tape)
    returns (swings': seq<Swing>, tape': Tape, ghost bs': seq<Break>)
    requires i < |cs| && Confirmed(ps, w, i + 1)
    requires forall j :: 0 <= j < |bs| ==> bs[j].index < |cs|
    requires swings == SwingsOf(d, cs, w, ps, i) && tape == TapeOf(cs, bs, i)
    ensures swings' == SwingsOf(d, cs, w, ps, i + 1)
    ensures bs' == bs + BreaksAt(d, cs, w, i, ps)
    ensures tape' == TapeOf(cs, bs', i)
  {
    hide TapeOf, SwingOf, BreakIndex;
    swings', tape', bs' := swings, tape, bs;
    var k := 0;
    assert BreaksAt(d, cs, w, i, ps[..0]) == [];
    hide BreaksAt;
    while k < |swings|
      invariant k <= |swings'| == |ps|
      invariant forall j :: 0 <= j < k ==> swings'[j] == SwingOf(d, cs, w, ps[j], i + 1)
      invariant forall j :: k <= j < |ps| ==> swings'[j] == swings[j]
      invariant bs' == bs + BreaksAt(d, cs, w, i, ps[..k])
      invariant tape' == TapeOf(cs, bs', i)
    {
      var s;
      s, tape', bs' := BreakSwing(d, cs, w, i, ps[k], bs', swings'[k], tape');
      swings' := swings'[k := s];
      BreaksAtGrow(d, cs, w, i, ps, k);
      k := k + 1;
    }
    assert ps[..k] == ps;
  }

  // ----- E. order block mitigation -----

  method MitigateBlocks(cs: seq<Candle>, i: nat, ghost bs: seq<Break>, tape: Tape) returns (r: Tape)
    requires i < |cs|
    requires forall j :: 0 <= j < |bs| ==> bs[j].index < |cs|
    requires tape == TapeOf(cs, bs, i)
    ensures r == TapeOf(cs, bs, i + 1)
  {
    hide BlockSeeds, Events, Bias;
    var blocks := tape.orderBlocks;
    ghost var ss := BlockSeeds(cs, bs);
    for k := 0 to |blocks|
      invariant |blocks| == |ss|
      invariant forall j :: 0 <= j < |ss| ==> blocks[j] == BlockOf(cs, ss[j], if j < k then i + 1 else i)
    {
      var ob := blocks[k];
      if !ob.mitigated && i > ob.formedIndex {
        if ob.side.Bullish? {
          if cs[i].low <= ob.high {
            blocks := blocks[k := ob.(mitigated := true, mitigateIndex := Some(i))];
          }
        } else {
          if cs[i].high >= ob.low {
            blocks := blocks[k := ob.(mitigated := true, mitigateIndex := Some(i))];
          }
        }
      }
    }
    r := tape.(orderBlocks := blocks);
  }

  // ----- F. fair value gaps -----

  function FreshGap(cs: seq<Candle>, g: GapSeed): Gap
    requires GapForms(cs, g)
  {
    Gap(g.formed - 1, g.side, Top(cs, g), Bottom(cs, g), false, None)
  }

  lemma GapsOfGrow(cs: seq<Candle>, gs: seq<GapSeed>, g: GapSeed)
    requires (forall k :: 0 <= k < |gs| ==> GapForms(cs, gs[k])) && GapForms(cs, g)
    ensures GapsOf(cs, gs + [g], g.formed) == GapsOf(cs, gs, g.formed) + [FreshGap(cs, g)]
  {
  }

  method DetectGaps(cs: seq<Candle>, i: nat, gaps: seq<Gap>) returns (r: seq<Gap>)
    requires i < |cs|
    requires gaps == Gaps(cs, i, i)
    ensures r == Gaps(cs, i + 1, i)
  {
    hide GapsOf, GapTrigger;
    r := gaps;
    ghost var gs := GapSeeds(cs, i);
    if i >= 2 {
      if cs[i].low > cs[i - 2].high {
        r := r + [Gap(i - 1, Bullish, cs[i].low, cs[i - 2].high, false, None)];
        GapsOfGrow(cs, gs, GapSeed(i, Bullish));
        gs := gs + [GapSeed(i, Bullish)];
      }
      if cs[i].high < cs[i - 2].low {
        r := r + [Gap(i - 1, Bearish, cs[i - 2].low, cs[i].high, false, None)];
        GapsOfGrow(cs, gs, GapSeed(i, Bearish));
        gs := gs + [GapSeed(i, Bearish)];
      }
    }
    assert gs == GapSeeds(cs, i + 1);
  }

  // ----- G. gap mitigation -----

  method MitigateGaps(cs: seq<Candle>, i: nat, gaps: seq<Gap>) returns (r: seq<Gap>)
    requires i < |cs|
    requires gaps == Gaps(cs, i + 1, i)
    ensures r == Gaps(cs, i + 1, i + 1)
  {
    hide GapSeeds;
    r := gaps;
    ghost var gs := GapSeeds(cs, i + 1);
    for k := 0 to |gaps|
      invariant |r| == |gs|
      invariant forall j :: 0 <= j < |gs| ==> r[j] == GapOf(cs, gs[j], if j < k then i + 1 else i)
    {
      var g := r[k];
      if !g.mitigated && i > g.index + 1 {
        if g.side.Bullish? {
          if cs[i].low <= g.top {
            r := r[k := g.(mitigated := true, mitigateIndex := Some(i))];
          }
        } else {
          if cs[i].high >= g.bottom {
            r := r[k := g.(mitigated := true, mitigateIndex := Some(i))];
          }
        }
      }
    }
  }

  // ----- the pass -----

  /** Sections D and E: highs break before lows, then the blocks are checked. */
  method BreakPhase(cs: seq<Candle>, w: nat, i: nat, ghost hp: seq<nat>, ghost lp: seq<nat>, ghost bs: seq<Break>,
                    highs: seq<Swing>, lows: seq<Swing>, tape: Tape)
    returns (highs': seq<Swing>, lows': seq<Swing>, tape': Tape)
    requires i < |cs| && Confirmed(hp, w, i + 1) && Confirmed(lp, w, i + 1)
    requires forall j :: 0 <= j < |bs| ==> bs[j].index < |cs|
    requires highs == SwingsOf(Bullish, cs, w, hp, i) && lows == SwingsOf(Bearish, cs, w, lp, i)
    requires tape == TapeOf(cs, bs, i)
    ensures highs' == SwingsOf(Bullish, cs, w, hp, i + 1) && lows' == SwingsOf(Bearish, cs, w, lp, i + 1)
    ensures tape' == TapeOf(cs, bs + BreaksAt(Bullish, cs, w, i, hp) + BreaksAt(Bearish, cs, w, i, lp), i + 1)
  {
    ghost var up, down;
    highs', tape', up := BreakScan(Bullish, cs, w, i, hp, bs, highs, tape);
    lows', tape', down := BreakScan(Bearish, cs, w, i, lp, up, lows, tape');
    tape' := MitigateBlocks(cs, i, down, tape');
  }

  lemma BreaksGrow(cs: seq<Candle>, w: nat, i: nat)
    requires i < |cs|
    ensures Breaks(cs, w, i + 1) ==
            Breaks(cs, w, i) + BreaksAt(Bullish, cs, w, i, Pivots(Bullish, cs, w, i + 1))
            + BreaksAt(Bearish, cs, w, i, Pivots(Bearish, cs, w, i + 1))
  {
  }

  method ScanCandle(cs: seq<Candle>, w: nat, i: nat, l: Ledger) returns (r: Ledger)
    requires i < |cs|
    requires l == LedgerOf(cs, w, i)
    ensures r == LedgerOf(cs, w, i + 1)
  {
    ghost var hp, lp := Pivots(Bullish, cs, w, i + 1), Pivots(Bearish, cs, w, i + 1);
    var highs := ConfirmSwing(Bullish, cs, w, i, l.swingHighs);
    var lows := ConfirmSwing(Bearish, cs, w, i, l.swingLows);
    var lowSweeps := SweepScan(Bearish, cs, w, i, lp, lows);
    var highSweeps := SweepScan(Bullish, cs, w, i, hp, highs);
    var tape;
    highs, lows, tape := BreakPhase(cs, w, i, hp, lp, Breaks(cs, w, i), highs, lows, l.tape);
    var gaps := DetectGaps(cs, i, l.gaps);
    gaps := MitigateGaps(cs, i, gaps);
    BreaksGrow(cs, w, i);
    r := Ledger(highs, lows, tape, l.sweeps + lowSweeps + highSweeps, gaps);
  }

  method Scan(cs: seq<Candle>, w: nat) returns (l: Ledger)
    ensures l == LedgerOf(cs, w, |cs|)
  {
    l := Ledger([], [], Tape([], [], 0), [], []);
    for i := 0 to |cs|
      invariant l == LedgerOf(cs, w, i)
    {
      l := ScanCandle(cs, w, i, l);
    }
  }
}
