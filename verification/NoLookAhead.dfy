/** A scan never looks ahead: what it reports on the first m candles is what the scan of
    the whole series reports, restricted to what had happened by then. */
module NoLookAhead {
  import opened Wrappers
  import opened Candles
  import opened MarketStructure

  // ----- candles from m on do not matter to the first m -----

  lemma {:induction false} WindowPrefix(d: Direction, cs: seq<Candle>, m: nat, lo: nat, hi: nat)
    requires lo < hi <= m <= |cs|
    ensures WindowMin(d, cs[..m], lo, hi) == WindowMin(d, cs, lo, hi)
    ensures WindowMax(d, cs[..m], lo, hi) == WindowMax(d, cs, lo, hi)
    decreases hi
  {
    if hi > lo + 1 {
      WindowPrefix(d, cs, m, lo, hi - 1);
    }
  }

  lemma {:induction false} PivotsPrefix(d: Direction, cs: seq<Candle>, w: nat, m: nat, n: nat)
    requires n <= m <= |cs|
    ensures Pivots(d, cs[..m], w, n) == Pivots(d, cs, w, n)
    decreases n
  {
    if n >= 2 * w + 1 {
      PivotsPrefix(d, cs, w, m, n - 1);
      WindowPrefix(d, cs, m, n - 1 - 2 * w, n);
    }
  }

  lemma SwingsPrefix(d: Direction, cs: seq<Candle>, w: nat, m: nat)
    requires m <= |cs|
    ensures Swings(d, cs[..m], w, m, m) == Swings(d, cs, w, m, m)
  {
    PivotsPrefix(d, cs, w, m, m);
    var ps := Pivots(d, cs, w, m);
    forall k | 0 <= k < |ps|
      ensures SwingOf(d, cs[..m], w, ps[k], m) == SwingOf(d, cs, w, ps[k], m)
    {
      FirstFirePrefix(cs, BreakTrigger(d, Level(d, cs[ps[k]])), ps[k] + w, m, m);
    }
  }

  lemma {:induction false} SweepsAtPrefix(d: Direction, cs: seq<Candle>, w: nat, m: nat, i: nat, ps: seq<nat>)
    requires i < m <= |cs| && Confirmed(ps, w, i + 1)
    ensures SweepsAt(d, cs[..m], w, i, ps) == SweepsAt(d, cs, w, i, ps)
    decreases |ps|
  {
    if ps != [] {
      var t := ps[|ps| - 1];
      SweepsAtPrefix(d, cs, w, m, i, ps[..|ps| - 1]);
      FirstFirePrefix(cs, BreakTrigger(d, Level(d, cs[t])), t + w, m, i);
    }
  }

  lemma SweepsOnPrefix(cs: seq<Candle>, w: nat, m: nat, i: nat)
    requires i < m <= |cs|
    ensures SweepsOn(cs[..m], w, i) == SweepsOn(cs, w, i)
  {
    hide Pivots, SweepsAt;
    PivotsPrefix(Bearish, cs, w, m, i + 1);
    PivotsPrefix(Bullish, cs, w, m, i + 1);
    SweepsAtPrefix(Bearish, cs, w, m, i, Pivots(Bearish, cs, w, i + 1));
    SweepsAtPrefix(Bullish, cs, w, m, i, Pivots(Bullish, cs, w, i + 1));
  }

  lemma {:induction false} SweepsPrefix(cs: seq<Candle>, w: nat, m: nat, n: nat)
    requires n <= m <= |cs|
    ensures Sweeps(cs[..m], w, n) == Sweeps(cs, w, n)
    decreases n
  {
    hide SweepsOn;
    if n > 0 {
      SweepsPrefix(cs, w, m, n - 1);
      SweepsOnPrefix(cs, w, m, n - 1);
    }
  }

  lemma {:induction false} BreaksAtPrefix(d: Direction, cs: seq<Candle>, w: nat, m: nat, i: nat, ps: seq<nat>)
    requires i < m <= |cs| && Confirmed(ps, w, i + 1)
    ensures BreaksAt(d, cs[..m], w, i, ps) == BreaksAt(d, cs, w, i, ps)
    decreases |ps|
  {
    if ps != [] {
      var t := ps[|ps| - 1];
      BreaksAtPrefix(d, cs, w, m, i, ps[..|ps| - 1]);
      FirstFirePrefix(cs, BreakTrigger(d, Level(d, cs[t])), t + w, m, i + 1);
    }
  }

  lemma BreaksOnPrefix(cs: seq<Candle>, w: nat, m: nat, i: nat)
    requires i < m <= |cs|
    ensures BreaksOn(cs[..m], w, i) == BreaksOn(cs, w, i)
  {
    hide Pivots, BreaksAt;
    PivotsPrefix(Bullish, cs, w, m, i + 1);
    PivotsPrefix(Bearish, cs, w, m, i + 1);
    BreaksAtPrefix(Bullish, cs, w, m, i, Pivots(Bullish, cs, w, i + 1));
    BreaksAtPrefix(Bearish, cs, w, m, i, Pivots(Bearish, cs, w, i + 1));
  }

  lemma {:induction false} BreaksPrefix(cs: seq<Candle>, w: nat, m: nat, n: nat)
    requires n <= m <= |cs|
    ensures Breaks(cs[..m], w, n) == Breaks(cs, w, n)
    decreases n
  {
    hide BreaksOn;
    if n > 0 {
      BreaksPrefix(cs, w, m, n - 1);
      BreaksOnPrefix(cs, w, m, n - 1);
    }
  }

  lemma {:induction false} BlockSeedsPrefix(cs: seq<Candle>, m: nat, bs: seq<Break>)
    requires m <= |cs| && forall j :: 0 <= j < |bs| ==> bs[j].index < m
    ensures BlockSeeds(cs[..m], bs) == BlockSeeds(cs, bs)
    ensures forall j :: 0 <= j < |BlockSeeds(cs, bs)| ==> BlockSeeds(cs, bs)[j].formed < m
    decreases |bs|
  {
    if bs != [] {
      BlockSeedsPrefix(cs, m, bs[..|bs| - 1]);
    }
  }

  lemma BlocksPrefix(cs: seq<Candle>, m: nat, bs: seq<Break>)
    requires m <= |cs| && forall j :: 0 <= j < |bs| ==> bs[j].index < m
    ensures Blocks(cs[..m], bs, m) == Blocks(cs, bs, m)
  {
    BlockSeedsPrefix(cs, m, bs);
    var ss := BlockSeeds(cs, bs);
    forall k | 0 <= k < |ss|
      ensures BlockOf(cs[..m], ss[k], m) == BlockOf(cs, ss[k], m)
    {
      FirstFirePrefix(cs, BlockTrigger(ss[k].side, cs[ss[k].index]), ss[k].formed + 1, m, m);
    }
  }

  lemma {:induction false} GapSeedsPrefix(cs: seq<Candle>, m: nat, n: nat)
    requires n <= m <= |cs|
    ensures GapSeeds(cs[..m], n) == GapSeeds(cs, n)
    decreases n
  {
    if n > 0 {
      GapSeedsPrefix(cs, m, n - 1);
    }
  }

  lemma GapsPrefix(cs: seq<Candle>, m: nat)
    requires m <= |cs|
    ensures Gaps(cs[..m], m, m) == Gaps(cs, m, m)
  {
    GapSeedsPrefix(cs, m, m);
    var gs := GapSeeds(cs, m);
    forall k | 0 <= k < |gs|
      ensures GapForms(cs[..m], gs[k]) && GapOf(cs[..m], gs[k], m) == GapOf(cs, gs[k], m)
    {
      FirstFirePrefix(cs, GapTrigger(cs, gs[k]), gs[k].formed + 1, m, m);
    }
  }

  lemma LedgerPrefix(cs: seq<Candle>, w: nat, m: nat)
    requires m <= |cs|
    ensures LedgerOf(cs[..m], w, m) == LedgerOf(cs, w, m)
  {
    SwingsPrefix(Bullish, cs, w, m);
    SwingsPrefix(Bearish, cs, w, m);
    SweepsPrefix(cs, w, m, m);
    BreaksPrefix(cs, w, m, m);
    BlocksPrefix(cs, m, Breaks(cs, w, m));
    GapsPrefix(cs, m);
  }

  // ----- later candles only add -----

  function SwingAsOf(s: Swing, m: nat): Swing {
    var b := AsOf(s.breakIndex, m);
    s.(broken := b.Some?, breakIndex := b)
  }

  function BlockAsOf(ob: OrderBlock, m: nat): OrderBlock {
    var b := AsOf(ob.mitigateIndex, m);
    ob.(mitigated := b.Some?, mitigateIndex := b)
  }

  function GapAsOf(g: Gap, m: nat): Gap {
    var b := AsOf(g.mitigateIndex, m);
    g.(mitigated := b.Some?, mitigateIndex := b)
  }

  ghost predicate Extends<T>(early: seq<T>, late: seq<T>, asOf: T -> T) {
    |early| <= |late| && forall k :: 0 <= k < |early| ==> early[k] == asOf(late[k])
  }

  lemma {:induction false} PivotsGrow(d: Direction, cs: seq<Candle>, w: nat, m: nat, n: nat)
    requires m <= n <= |cs|
    ensures Pivots(d, cs, w, m) <= Pivots(d, cs, w, n)
    decreases n
  {
    if m < n {
      PivotsGrow(d, cs, w, m, n - 1);
    }
  }

  lemma SwingLater(d: Direction, cs: seq<Candle>, w: nat, t: nat, m: nat, n: nat)
    requires t < |cs| && m <= n <= |cs|
    ensures SwingOf(d, cs, w, t, m) == SwingAsOf(SwingOf(d, cs, w, t, n), m)
  {
  }

  lemma SwingsGrow(d: Direction, cs: seq<Candle>, w: nat, m: nat, n: nat)
    requires m <= n <= |cs|
    ensures Extends(Swings(d, cs, w, m, m), Swings(d, cs, w, n, n), s => SwingAsOf(s, m))
  {
    hide Pivots, SwingOf, SwingAsOf;
    PivotsGrow(d, cs, w, m, n);
    var ps := Pivots(d, cs, w, m);
    forall k | 0 <= k < |ps|
      ensures SwingOf(d, cs, w, ps[k], m) == SwingAsOf(SwingOf(d, cs, w, ps[k], n), m)
    {
      SwingLater(d, cs, w, ps[k], m, n);
    }
  }

  lemma {:induction false} SweepsGrow(cs: seq<Candle>, w: nat, m: nat, n: nat)
    requires m <= n <= |cs|
    ensures Sweeps(cs, w, m) <= Sweeps(cs, w, n)
    decreases n
  {
    hide SweepsOn;
    if m < n {
      SweepsGrow(cs, w, m, n - 1);
    }
  }

  lemma {:induction false} BreaksGrow(cs: seq<Candle>, w: nat, m: nat, n: nat)
    requires m <= n <= |cs|
    ensures Breaks(cs, w, m) <= Breaks(cs, w, n)
    decreases n
  {
    hide BreaksOn;
    if m < n {
      BreaksGrow(cs, w, m, n - 1);
    }
  }

  /** What later candles add is dated later. */
  lemma {:induction false} LaterBreaks(cs: seq<Candle>, w: nat, m: nat, n: nat, k: nat)
    requires m <= n <= |cs|
    requires |Breaks(cs, w, m)| <= k < |Breaks(cs, w, n)|
    ensures Breaks(cs, w, n)[k].index >= m
    decreases n
  {
    hide BreaksOn;
    if m < n {
      if k < |Breaks(cs, w, n - 1)| {
        LaterBreaks(cs, w, m, n - 1, k);
      }
    }
  }

  lemma {:induction false} BlockSeedsGrow(cs: seq<Candle>, bs: seq<Break>, bs': seq<Break>)
    requires bs <= bs' && forall j :: 0 <= j < |bs'| ==> bs'[j].index < |cs|
    ensures BlockSeeds(cs, bs) <= BlockSeeds(cs, bs')
    decreases |bs'|
  {
    if |bs| < |bs'| {
      BlockSeedsGrow(cs, bs, bs'[..|bs'| - 1]);
    } else {
      assert bs == bs';
    }
  }

  lemma BlockLater(cs: seq<Candle>, s: Seed, m: nat, n: nat)
    requires s.index < |cs| && m <= n <= |cs|
    ensures BlockOf(cs, s, m) == BlockAsOf(BlockOf(cs, s, n), m)
  {
  }

  lemma BlocksGrow(cs: seq<Candle>, bs: seq<Break>, bs': seq<Break>, m: nat, n: nat)
    requires bs <= bs' && m <= n <= |cs| && forall j :: 0 <= j < |bs'| ==> bs'[j].index < |cs|
    ensures Extends(Blocks(cs, bs, m), Blocks(cs, bs', n), ob => BlockAsOf(ob, m))
  {
    hide BlockSeeds, BlockOf, BlockAsOf;
    BlockSeedsGrow(cs, bs, bs');
    var ss := BlockSeeds(cs, bs);
    forall k | 0 <= k < |ss|
      ensures BlockOf(cs, ss[k], m) == BlockAsOf(BlockOf(cs, ss[k], n), m)
    {
      BlockLater(cs, ss[k], m, n);
    }
  }

  lemma {:induction false} GapSeedsGrow(cs: seq<Candle>, m: nat, n: nat)
    requires m <= n <= |cs|
    ensures GapSeeds(cs, m) <= GapSeeds(cs, n)
    decreases n
  {
    if m < n {
      GapSeedsGrow(cs, m, n - 1);
    }
  }

  lemma GapLater(cs: seq<Candle>, g: GapSeed, m: nat, n: nat)
    requires GapForms(cs, g) && m <= n <= |cs|
    ensures GapOf(cs, g, m) == GapAsOf(GapOf(cs, g, n), m)
  {
  }

  lemma GapsGrow(cs: seq<Candle>, m: nat, n: nat)
    requires m <= n <= |cs|
    ensures Extends(Gaps(cs, m, m), Gaps(cs, n, n), g => GapAsOf(g, m))
  {
    hide GapSeeds, GapForms, GapOf, GapAsOf;
    GapSeedsGrow(cs, m, n);
    var gs := GapSeeds(cs, m);
    forall k | 0 <= k < |gs|
      ensures GapOf(cs, gs[k], m) == GapAsOf(GapOf(cs, gs[k], n), m)
    {
      GapLater(cs, gs[k], m, n);
    }
  }

  lemma EventsGrow(cs: seq<Candle>, w: nat, m: nat)
    requires m <= |cs|
    ensures
      var es, es' := Events(Breaks(cs, w, m)), Events(Breaks(cs, w, |cs|));
      es <= es' && forall k :: |es| <= k < |es'| ==> es'[k].brk.index >= m
  {
    var bs, bs' := Breaks(cs, w, m), Breaks(cs, w, |cs|);
    BreaksGrow(cs, w, m, |cs|);
    assert forall k :: 0 <= k < |bs| ==> TagAt(bs, k) == TagAt(bs', k);
    forall k | |bs| <= k < |bs'|
      ensures bs'[k].index >= m
    {
      LaterBreaks(cs, w, m, |cs|, k);
    }
  }

  /** The scan of the first m candles against the scan of them all. */
  lemma NoLookAhead(cs: seq<Candle>, w: nat, m: nat)
    requires m <= |cs|
    ensures
      var early, late := LedgerOf(cs[..m], w, m), LedgerOf(cs, w, |cs|);
      && Extends(early.swingHighs, late.swingHighs, s => SwingAsOf(s, m))
      && Extends(early.swingLows, late.swingLows, s => SwingAsOf(s, m))
      && early.tape.events <= late.tape.events
      && (forall k :: |early.tape.events| <= k < |late.tape.events| ==> late.tape.events[k].brk.index >= m)
      && Extends(early.tape.orderBlocks, late.tape.orderBlocks, ob => BlockAsOf(ob, m))
      && early.sweeps <= late.sweeps
      && Extends(early.gaps, late.gaps, g => GapAsOf(g, m))
  {
    hide Swings, Breaks, Sweeps, Gaps, Blocks, Events, Extends, SwingAsOf, BlockAsOf, GapAsOf;
    LedgerPrefix(cs, w, m);
    SwingsGrow(Bullish, cs, w, m, |cs|);
    SwingsGrow(Bearish, cs, w, m, |cs|);
    var bs, bs' := Breaks(cs, w, m), Breaks(cs, w, |cs|);
    BreaksGrow(cs, w, m, |cs|);
    EventsGrow(cs, w, m);
    BlocksGrow(cs, bs, bs', m, |cs|);
    SweepsGrow(cs, w, m, |cs|);
    GapsGrow(cs, m, |cs|);
  }
}
