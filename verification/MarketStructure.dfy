/** What one pass over a candle series means: for every prefix length, the swings,
    breaks, sweeps, order blocks and fair value gaps it determines.  Nothing here
    scans or flips a flag; StructureScanner does, and is proved to arrive at these
    values.  A direction names the break a swing waits for: swing highs are broken
    Bullish, swing lows Bearish. */
module MarketStructure {
  import opened Wrappers
  import opened Candles

  // ----- swing points -----

  function Level(d: Direction, c: Candle): real {
    if d.Bullish? then c.high else c.low
  }

  function WindowMax(d: Direction, cs: seq<Candle>, lo: nat, hi: nat): real
    requires lo < hi <= |cs|
  {
    var x := Level(d, cs[hi - 1]);
    if hi == lo + 1 then x
    else
      var m := WindowMax(d, cs, lo, hi - 1);
      if x > m then x else m
  }

  function WindowMin(d: Direction, cs: seq<Candle>, lo: nat, hi: nat): real
    requires lo < hi <= |cs|
  {
    var x := Level(d, cs[hi - 1]);
    if hi == lo + 1 then x
    else
      var m := WindowMin(d, cs, lo, hi - 1);
      if x < m then x else m
  }

  /** The extreme of its own window of radius w, in a window that is not flat. */
  predicate IsPivot(d: Direction, cs: seq<Candle>, w: nat, t: nat)
    requires w <= t && t + w < |cs|
  {
    var min, max := WindowMin(d, cs, t - w, t + w + 1), WindowMax(d, cs, t - w, t + w + 1);
    Level(d, cs[t]) == (if d.Bullish? then max else min) && min != max
  }

  /** Indices of swings whose window, and at least one later candle, lie before n. */
  predicate Confirmed(ps: seq<nat>, w: nat, n: nat) {
    forall k :: 0 <= k < |ps| ==> w <= ps[k] && ps[k] + w < n && ps[k] + 1 < n
  }

  /** Pivots whose whole window lies within the first n candles, oldest first. */
  function Pivots(d: Direction, cs: seq<Candle>, w: nat, n: nat): (r: seq<nat>)
    requires n <= |cs|
    ensures Confirmed(r, w, n)
  {
    if n < 2 * w + 1 then []
    else
      var ps, t := Pivots(d, cs, w, n - 1), n - 1 - w;
      if IsPivot(d, cs, w, t) then ps + [t] else ps
  }

  datatype Swing = Swing(index: nat, price: real, broken: bool, breakIndex: Option<nat>)

  function BreakTrigger(d: Direction, level: real): Trigger {
    if d.Bullish? then CloseAbove(level) else CloseBelow(level)
  }

  /** First break seen from the confirming candle t + w on. */
  function BreakIndex(d: Direction, cs: seq<Candle>, w: nat, t: nat, seen: nat): Option<nat>
    requires t < |cs| && seen <= |cs|
  {
    FirstFire(cs, BreakTrigger(d, Level(d, cs[t])), t + w, seen)
  }

  function SwingOf(d: Direction, cs: seq<Candle>, w: nat, t: nat, seen: nat): Swing
    requires t < |cs| && seen <= |cs|
  {
    var b := BreakIndex(d, cs, w, t, seen);
    Swing(t, Level(d, cs[t]), b.Some?, b)
  }

  function SwingsOf(d: Direction, cs: seq<Candle>, w: nat, ps: seq<nat>, seen: nat): (r: seq<Swing>)
    requires (forall k :: 0 <= k < |ps| ==> ps[k] < |cs|) && seen <= |cs|
    ensures |r| == |ps|
    ensures forall k :: 0 <= k < |r| ==> r[k] == SwingOf(d, cs, w, ps[k], seen)
  {
    seq(|ps|, k requires 0 <= k < |ps| => SwingOf(d, cs, w, ps[k], seen))
  }

  /** Swings confirmed by the first n candles, flags as of the first `seen` candles. */
  function Swings(d: Direction, cs: seq<Candle>, w: nat, n: nat, seen: nat): seq<Swing>
    requires n <= |cs| && seen <= |cs|
  {
    SwingsOf(d, cs, w, Pivots(d, cs, w, n), seen)
  }

  // ----- liquidity sweeps -----

  datatype Sweep = Sweep(index: nat, side: Direction, swingIndex: nat, swingPrice: real, sweptPrice: real)

  /** The wick goes past the level but the close comes back. */
  predicate Pierces(d: Direction, level: real, c: Candle) {
    if d.Bullish? then c.high > level && c.close < level
    else c.low < level && c.close > level
  }

  /** The swing at t is still unbroken before candle i, which sweeps it. */
  predicate IsSwept(d: Direction, cs: seq<Candle>, w: nat, i: nat, t: nat)
    requires i < |cs| && t < |cs|
  {
    BreakIndex(d, cs, w, t, i).None? && Pierces(d, Level(d, cs[t]), cs[i])
  }

  /** Sweeps at candle i of the swings at ps. */
  function SweepsAt(d: Direction, cs: seq<Candle>, w: nat, i: nat, ps: seq<nat>): seq<Sweep>
    requires i < |cs| && Confirmed(ps, w, i + 1)
  {
    if ps == [] then []
    else
      var t := ps[|ps| - 1];
      var ss := SweepsAt(d, cs, w, i, ps[..|ps| - 1]);
      if IsSwept(d, cs, w, i, t)
      then ss + [Sweep(i, d.Opposite(), t, Level(d, cs[t]), Level(d, cs[i]))] else ss
  }

  function SweepsOn(cs: seq<Candle>, w: nat, i: nat): seq<Sweep>
    requires i < |cs|
  {
    SweepsAt(Bearish, cs, w, i, Pivots(Bearish, cs, w, i + 1))
    + SweepsAt(Bullish, cs, w, i, Pivots(Bullish, cs, w, i + 1))
  }

  function Sweeps(cs: seq<Candle>, w: nat, n: nat): seq<Sweep>
    requires n <= |cs|
  {
    if n == 0 then [] else Sweeps(cs, w, n - 1) + SweepsOn(cs, w, n - 1)
  }

  // ----- breaks of structure -----

  datatype Break = Break(index: nat, side: Direction, swingIndex: nat, swingPrice: real, breakPrice: real)
  datatype Tag = BOS | CHOCH
  datatype StructureEvent = StructureEvent(brk: Break, tag: Tag)

  function BreakOf(d: Direction, cs: seq<Candle>, i: nat, t: nat): Break
    requires i < |cs| && t < |cs|
  {
    Break(i, d, t, Level(d, cs[t]), cs[i].close)
  }

  /** Breaks at candle i of the swings at ps. */
  function BreaksAt(d: Direction, cs: seq<Candle>, w: nat, i: nat, ps: seq<nat>): (r: seq<Break>)
    requires i < |cs| && Confirmed(ps, w, i + 1)
    ensures forall j :: 0 <= j < |r| ==> r[j].index == i && r[j].side == d
  {
    if ps == [] then []
    else
      var t := ps[|ps| - 1];
      var bs := BreaksAt(d, cs, w, i, ps[..|ps| - 1]);
      if BreakIndex(d, cs, w, t, i + 1) == Some(i) then bs + [BreakOf(d, cs, i, t)] else bs
  }

  function BreaksOn(cs: seq<Candle>, w: nat, i: nat): (r: seq<Break>)
    requires i < |cs|
    ensures forall j :: 0 <= j < |r| ==> r[j].index == i
  {
    BreaksAt(Bullish, cs, w, i, Pivots(Bullish, cs, w, i + 1))
    + BreaksAt(Bearish, cs, w, i, Pivots(Bearish, cs, w, i + 1))
  }

  function Breaks(cs: seq<Candle>, w: nat, n: nat): (r: seq<Break>)
    requires n <= |cs|
    ensures forall j :: 0 <= j < |r| ==> r[j].index < n
  {
    if n == 0 then [] else Breaks(cs, w, n - 1) + BreaksOn(cs, w, n - 1)
  }

  /** A break is a change of character exactly when the break before it went the other way. */
  function TagAt(bs: seq<Break>, k: nat): Tag
    requires k < |bs|
  {
    if k > 0 && bs[k - 1].side != bs[k].side then CHOCH else BOS
  }

  function Events(bs: seq<Break>): seq<StructureEvent> {
    seq(|bs|, k requires 0 <= k < |bs| => StructureEvent(bs[k], TagAt(bs, k)))
  }

  /** +1 after a Bullish break, -1 after a Bearish one, 0 before any. */
  function Bias(bs: seq<Break>): int {
    if bs == [] then 0 else if bs[|bs| - 1].side.Bullish? then 1 else -1
  }

  // ----- order blocks -----

  /** The candle a move sets out from: down before a Bullish break, up before a Bearish one. */
  predicate Against(d: Direction, c: Candle) {
    if d.Bullish? then c.close < c.open else c.close > c.open
  }

  /** The last candle before n that closed against d. */
  function Origin(d: Direction, cs: seq<Candle>, n: nat): (r: Option<nat>)
    requires n <= |cs|
    ensures r.Some? ==> r.value < n && Against(d, cs[r.value])
    ensures r.Some? ==> forall k :: r.value < k < n ==> !Against(d, cs[k])
    ensures r.None? ==> forall k :: 0 <= k < n ==> !Against(d, cs[k])
  {
    if n == 0 then None
    else if Against(d, cs[n - 1]) then Some(n - 1)
    else Origin(d, cs, n - 1)
  }

  datatype OrderBlock = OrderBlock(
    index: nat, formedIndex: nat, side: Direction,
    high: real, low: real, open: real, close: real,
    mitigated: bool, mitigateIndex: Option<nat>)

  datatype Seed = Seed(index: nat, formed: nat, side: Direction)

  predicate HasSeed(ss: seq<Seed>, index: nat, side: Direction) {
    exists k :: 0 <= k < |ss| && ss[k].index == index && ss[k].side == side
  }

  /** Where each order block sits and which break formed it: one block per origin
      candle and direction, formed by the first break that leads back to it. */
  function BlockSeeds(cs: seq<Candle>, bs: seq<Break>): (r: seq<Seed>)
    requires forall j :: 0 <= j < |bs| ==> bs[j].index < |cs|
    ensures forall j :: 0 <= j < |r| ==> r[j].index <= r[j].formed < |cs|
  {
    if bs == [] then []
    else
      var b := bs[|bs| - 1];
      var ss := BlockSeeds(cs, bs[..|bs| - 1]);
      var o := Origin(b.side, cs, b.index + 1);
      if o.Some? && !HasSeed(ss, o.value, b.side)
      then ss + [Seed(o.value, b.index, b.side)] else ss
  }

  function BlockTrigger(d: Direction, c: Candle): Trigger {
    if d.Bullish? then LowReaches(c.high) else HighReaches(c.low)
  }

  function BlockOf(cs: seq<Candle>, s: Seed, seen: nat): OrderBlock
    requires s.index < |cs| && seen <= |cs|
  {
    var c := cs[s.index];
    var m := FirstFire(cs, BlockTrigger(s.side, c), s.formed + 1, seen);
    OrderBlock(s.index, s.formed, s.side, c.high, c.low, c.open, c.close, m.Some?, m)
  }

  function BlocksOf(cs: seq<Candle>, ss: seq<Seed>, seen: nat): (r: seq<OrderBlock>)
    requires (forall k :: 0 <= k < |ss| ==> ss[k].index < |cs|) && seen <= |cs|
    ensures |r| == |ss|
    ensures forall k :: 0 <= k < |r| ==> r[k] == BlockOf(cs, ss[k], seen)
  {
    seq(|ss|, k requires 0 <= k < |ss| => BlockOf(cs, ss[k], seen))
  }

  function Blocks(cs: seq<Candle>, bs: seq<Break>, seen: nat): seq<OrderBlock>
    requires forall j :: 0 <= j < |bs| ==> bs[j].index < |cs|
    requires seen <= |cs|
  {
    BlocksOf(cs, BlockSeeds(cs, bs), seen)
  }

  // ----- fair value gaps -----

  datatype Gap = Gap(index: nat, side: Direction, top: real, bottom: real,
                     mitigated: bool, mitigateIndex: Option<nat>)

  datatype GapSeed = GapSeed(formed: nat, side: Direction)

  predicate GapForms(cs: seq<Candle>, g: GapSeed) {
    && 2 <= g.formed < |cs|
    && (if g.side.Bullish? then cs[g.formed].low > cs[g.formed - 2].high
        else cs[g.formed].high < cs[g.formed - 2].low)
  }

  /** Gaps completed by the first n candles, in formation order. */
  function GapSeeds(cs: seq<Candle>, n: nat): (r: seq<GapSeed>)
    requires n <= |cs|
    ensures forall k :: 0 <= k < |r| ==> r[k].formed < n && GapForms(cs, r[k])
  {
    if n == 0 then []
    else
      var up, down := GapSeed(n - 1, Bullish), GapSeed(n - 1, Bearish);
      var gs := GapSeeds(cs, n - 1);
      var gs' := if GapForms(cs, up) then gs + [up] else gs;
      if GapForms(cs, down) then gs' + [down] else gs'
  }

  function Top(cs: seq<Candle>, g: GapSeed): real
    requires GapForms(cs, g)
  {
    if g.side.Bullish? then cs[g.formed].low else cs[g.formed - 2].low
  }

  function Bottom(cs: seq<Candle>, g: GapSeed): real
    requires GapForms(cs, g)
  {
    if g.side.Bullish? then cs[g.formed - 2].high else cs[g.formed].high
  }

  /** A gap is entered from the side its price left it on. */
  function GapTrigger(cs: seq<Candle>, g: GapSeed): Trigger
    requires GapForms(cs, g)
  {
    if g.side.Bullish? then LowReaches(Top(cs, g)) else HighReaches(Bottom(cs, g))
  }

  function GapOf(cs: seq<Candle>, g: GapSeed, seen: nat): Gap
    requires GapForms(cs, g) && seen <= |cs|
  {
    var m := FirstFire(cs, GapTrigger(cs, g), g.formed + 1, seen);
    Gap(g.formed - 1, g.side, Top(cs, g), Bottom(cs, g), m.Some?, m)
  }

  function GapsOf(cs: seq<Candle>, gs: seq<GapSeed>, seen: nat): (r: seq<Gap>)
    requires (forall k :: 0 <= k < |gs| ==> GapForms(cs, gs[k])) && seen <= |cs|
    ensures |r| == |gs|
    ensures forall k :: 0 <= k < |r| ==> r[k] == GapOf(cs, gs[k], seen)
  {
    seq(|gs|, k requires 0 <= k < |gs| => GapOf(cs, gs[k], seen))
  }

  function Gaps(cs: seq<Candle>, n: nat, seen: nat): seq<Gap>
    requires n <= |cs| && seen <= |cs|
  {
    GapsOf(cs, GapSeeds(cs, n), seen)
  }

  // ----- the whole picture after n candles -----

  /** What the breaks so far have left behind: events, order blocks, running bias. */
  datatype Tape = Tape(events: seq<StructureEvent>, orderBlocks: seq<OrderBlock>, trendBias: int)

  function TapeOf(cs: seq<Candle>, bs: seq<Break>, seen: nat): Tape
    requires forall j :: 0 <= j < |bs| ==> bs[j].index < |cs|
    requires seen <= |cs|
  {
    Tape(Events(bs), Blocks(cs, bs, seen), Bias(bs))
  }

  datatype Ledger = Ledger(
    swingHighs: seq<Swing>, swingLows: seq<Swing>, tape: Tape, sweeps: seq<Sweep>, gaps: seq<Gap>)

  function LedgerOf(cs: seq<Candle>, w: nat, n: nat): Ledger
    requires n <= |cs|
  {
    Ledger(Swings(Bullish, cs, w, n, n), Swings(Bearish, cs, w, n, n),
           TapeOf(cs, Breaks(cs, w, n), n), Sweeps(cs, w, n), Gaps(cs, n, n))
  }
}
