/** What a reader of a scan may rely on, for every series of well formed candles. */
module StructureTheorems {
  import opened Wrappers
  import opened Candles
  import opened MarketStructure

  // ----- which swings are found -----

  lemma {:induction false} WindowBoundsExact(d: Direction, cs: seq<Candle>, lo: nat, hi: nat)
    requires lo < hi <= |cs|
    ensures forall k :: lo <= k < hi ==> WindowMin(d, cs, lo, hi) <= Level(d, cs[k]) <= WindowMax(d, cs, lo, hi)
    ensures exists k :: lo <= k < hi && Level(d, cs[k]) == WindowMin(d, cs, lo, hi)
    ensures exists k :: lo <= k < hi && Level(d, cs[k]) == WindowMax(d, cs, lo, hi)
    decreases hi
  {
    var last := hi - 1;
    if hi > lo + 1 {
      WindowBoundsExact(d, cs, lo, last);
      var a :| lo <= a < last && Level(d, cs[a]) == WindowMin(d, cs, lo, last);
      var b :| lo <= b < last && Level(d, cs[b]) == WindowMax(d, cs, lo, last);
      assert Level(d, cs[if Level(d, cs[last]) < Level(d, cs[a]) then last else a]) == WindowMin(d, cs, lo, hi);
      assert Level(d, cs[if Level(d, cs[last]) > Level(d, cs[b]) then last else b]) == WindowMax(d, cs, lo, hi);
    }
  }

  predicate NotBeyond(d: Direction, p: real, level: real) {
    if d.Bullish? then p <= level else p >= level
  }

  /** A pivot: nothing in its window goes past it, and something falls short of it. */
  lemma PivotExact(d: Direction, cs: seq<Candle>, w: nat, t: nat)
    requires w <= t && t + w < |cs|
    ensures IsPivot(d, cs, w, t) <==>
            && (forall k :: t - w <= k <= t + w ==> NotBeyond(d, Level(d, cs[k]), Level(d, cs[t])))
            && (exists k :: t - w <= k <= t + w && Level(d, cs[k]) != Level(d, cs[t]))
  {
    WindowBoundsExact(d, cs, t - w, t + w + 1);
    if IsPivot(d, cs, w, t) {
      var k :| t - w <= k <= t + w
               && Level(d, cs[k]) == if d.Bullish? then WindowMin(d, cs, t - w, t + w + 1)
                                     else WindowMax(d, cs, t - w, t + w + 1);
      assert Level(d, cs[k]) != Level(d, cs[t]);
    }
  }

  lemma {:induction false} PivotsExact(d: Direction, cs: seq<Candle>, w: nat, n: nat, t: nat)
    requires n <= |cs|
    ensures t in Pivots(d, cs, w, n) <==> w <= t && t + w < n && IsPivot(d, cs, w, t)
    decreases n
  {
    hide IsPivot;
    if n >= 2 * w + 1 {
      PivotsExact(d, cs, w, n - 1, t);
    }
  }

  /** A swing joins the list with its confirming candle and stays. */
  lemma PivotsJoinOnce(d: Direction, cs: seq<Candle>, w: nat, i: nat, n: nat, t: nat)
    requires i <= n <= |cs|
    ensures t in Pivots(d, cs, w, i) <==> t in Pivots(d, cs, w, n) && t + w < i
  {
    PivotsExact(d, cs, w, i, t);
    PivotsExact(d, cs, w, n, t);
  }

  lemma {:induction false} PivotsAscend(d: Direction, cs: seq<Candle>, w: nat, n: nat)
    requires n <= |cs|
    ensures forall j, k :: 0 <= j < k < |Pivots(d, cs, w, n)| ==> Pivots(d, cs, w, n)[j] < Pivots(d, cs, w, n)[k]
    decreases n
  {
    if n >= 2 * w + 1 {
      PivotsAscend(d, cs, w, n - 1);
    }
  }

  // ----- a late confirmation misses no break -----

  /** Though a swing is only watched from its confirming candle on, its break index is
      the first close past it after the swing itself. */
  lemma BreakIsFirstTouch(d: Direction, cs: seq<Candle>, w: nat, t: nat, n: nat)
    requires WellFormed(cs) && n <= |cs|
    requires w <= t && t + w < |cs| && IsPivot(d, cs, w, t)
    ensures BreakIndex(d, cs, w, t, n) == FirstFire(cs, BreakTrigger(d, Level(d, cs[t])), t + 1, n)
  {
    var trigger := BreakTrigger(d, Level(d, cs[t]));
    PivotExact(d, cs, w, t);
    forall k | t + 1 <= k < t + w && k < n
      ensures !Fires(trigger, cs[k])
    {
      assert NotBeyond(d, Level(d, cs[k]), Level(d, cs[t]));
      assert cs[k].WellFormed();
    }
  }

  predicate Passes(d: Direction, level: real, c: Candle) {
    if d.Bullish? then c.close > level else c.close < level
  }

  /** Every swing of a finished scan: broken exactly when some later candle closes past
      its price, and then at the first one that does. */
  lemma SwingFlagsExact(d: Direction, cs: seq<Candle>, w: nat, k: nat)
    requires WellFormed(cs)
    requires k < |Swings(d, cs, w, |cs|, |cs|)|
    ensures
      var s := Swings(d, cs, w, |cs|, |cs|)[k];
      && s.index < |cs| && s.price == Level(d, cs[s.index])
      && (s.broken <==> exists i :: s.index < i < |cs| && Passes(d, s.price, cs[i]))
      && (s.broken <==> s.breakIndex.Some?)
      && (s.broken ==> s.index < s.breakIndex.value < |cs| && Passes(d, s.price, cs[s.breakIndex.value])
                       && forall i :: s.index < i < s.breakIndex.value ==> !Passes(d, s.price, cs[i]))
  {
    var t := Pivots(d, cs, w, |cs|)[k];
    assert t in Pivots(d, cs, w, |cs|);
    PivotsExact(d, cs, w, |cs|, t);
    BreakIsFirstTouch(d, cs, w, t, |cs|);
    assert forall i :: 0 <= i < |cs| ==>
      (Passes(d, Level(d, cs[t]), cs[i]) <==> Fires(BreakTrigger(d, Level(d, cs[t])), cs[i]));
  }

  // ----- no candle breaks both ways -----

  /** Unbroken swing highs never lie below unbroken swing lows. */
  lemma Uncrossed(cs: seq<Candle>, w: nat, i: nat, th: nat, tl: nat)
    requires WellFormed(cs) && i < |cs|
    requires th in Pivots(Bullish, cs, w, i + 1) && tl in Pivots(Bearish, cs, w, i + 1)
    requires BreakIndex(Bullish, cs, w, th, i).None? && BreakIndex(Bearish, cs, w, tl, i).None?
    ensures cs[th].high >= cs[tl].low
  {
    PivotsExact(Bullish, cs, w, i + 1, th);
    PivotsExact(Bearish, cs, w, i + 1, tl);
    BreakIsFirstTouch(Bullish, cs, w, th, i);
    BreakIsFirstTouch(Bearish, cs, w, tl, i);
    assert cs[th].WellFormed() && cs[tl].WellFormed();
    if th < tl {
      assert !Fires(BreakTrigger(Bullish, cs[th].high), cs[tl]);
    } else if tl < th {
      assert !Fires(BreakTrigger(Bearish, cs[tl].low), cs[th]);
    }
  }

  lemma {:induction false} BreaksAtListed(d: Direction, cs: seq<Candle>, w: nat, i: nat, ps: seq<nat>, b: Break)
    requires i < |cs| && Confirmed(ps, w, i + 1)
    ensures b in BreaksAt(d, cs, w, i, ps) <==>
            b.swingIndex in ps && BreakIndex(d, cs, w, b.swingIndex, i + 1) == Some(i)
            && b == BreakOf(d, cs, i, b.swingIndex)
    decreases |ps|
  {
    if ps != [] {
      var t, rest := ps[|ps| - 1], ps[..|ps| - 1];
      assert ps == rest + [t];
      BreaksAtListed(d, cs, w, i, rest, b);
      var bs := BreaksAt(d, cs, w, i, rest);
      assert b in bs + [BreakOf(d, cs, i, t)] <==> b in bs || b == BreakOf(d, cs, i, t);
    }
  }

  lemma NoCandleBreaksBothWays(cs: seq<Candle>, w: nat, i: nat, b: Break, b': Break)
    requires WellFormed(cs) && i < |cs|
    requires b in BreaksOn(cs, w, i) && b' in BreaksOn(cs, w, i)
    ensures b.side == b'.side
  {
    var hp, lp := Pivots(Bullish, cs, w, i + 1), Pivots(Bearish, cs, w, i + 1);
    var up, down := BreaksAt(Bullish, cs, w, i, hp), BreaksAt(Bearish, cs, w, i, lp);
    if b.side != b'.side {
      var x, y := if b.side.Bullish? then b else b', if b.side.Bullish? then b' else b;
      assert x in up && y in down;
      BreaksAtListed(Bullish, cs, w, i, hp, x);
      BreaksAtListed(Bearish, cs, w, i, lp, y);
      Uncrossed(cs, w, i, x.swingIndex, y.swingIndex);
      assert false;
    }
  }

  // ----- the event list -----

  /** Candle i contributes exactly its own breaks. */
  lemma {:induction false} BreaksListed(cs: seq<Candle>, w: nat, n: nat, b: Break)
    requires n <= |cs|
    ensures b in Breaks(cs, w, n) <==> b.index < n && b in BreaksOn(cs, w, b.index)
    decreases n
  {
    hide BreaksOn;
    if n > 0 {
      BreaksListed(cs, w, n - 1, b);
    }
  }

  lemma BreaksOnExact(d: Direction, cs: seq<Candle>, w: nat, t: nat, i: nat)
    requires t < |cs| && i < |cs|
    ensures BreakOf(d, cs, i, t) in BreaksOn(cs, w, i) <==>
            t in Pivots(d, cs, w, i + 1) && BreakIndex(d, cs, w, t, i + 1) == Some(i)
  {
    var b := BreakOf(d, cs, i, t);
    BreaksAtListed(Bullish, cs, w, i, Pivots(Bullish, cs, w, i + 1), b);
    BreaksAtListed(Bearish, cs, w, i, Pivots(Bearish, cs, w, i + 1), b);
  }

  lemma BreakIndexSettles(d: Direction, cs: seq<Candle>, w: nat, t: nat, i: nat, n: nat)
    requires n <= |cs| && i < |cs| && t < |cs|
    ensures BreakIndex(d, cs, w, t, n) == Some(i) <==> i < n && BreakIndex(d, cs, w, t, i + 1) == Some(i)
    ensures BreakIndex(d, cs, w, t, n) == Some(i) ==> t + w < i + 1
  {
  }

  /** There is an event for a swing exactly when its flag is set, at its break index. */
  lemma EventsExact(d: Direction, cs: seq<Candle>, w: nat, n: nat, t: nat, i: nat)
    requires n <= |cs| && t < |cs| && i < |cs|
    ensures BreakOf(d, cs, i, t) in Breaks(cs, w, n) <==>
            t in Pivots(d, cs, w, n) && BreakIndex(d, cs, w, t, n) == Some(i)
  {
    hide Pivots, Breaks, BreaksOn, BreakIndex;
    BreaksListed(cs, w, n, BreakOf(d, cs, i, t));
    BreakIndexSettles(d, cs, w, t, i, n);
    if i < n {
      BreaksOnExact(d, cs, w, t, i);
      PivotsJoinOnce(d, cs, w, i + 1, n, t);
    }
  }

  lemma {:induction false} BreaksAscend(cs: seq<Candle>, w: nat, n: nat)
    requires n <= |cs|
    ensures forall j, k :: 0 <= j < k < |Breaks(cs, w, n)| ==> Breaks(cs, w, n)[j].index <= Breaks(cs, w, n)[k].index
    decreases n
  {
    if n > 0 {
      BreaksAscend(cs, w, n - 1);
      var bs, now := Breaks(cs, w, n - 1), BreaksOn(cs, w, n - 1);
      assert forall k :: 0 <= k < |bs| + |now| ==> (bs + now)[k] == if k < |bs| then bs[k] else now[k - |bs|];
    }
  }

  /** A change of character always happens on a later candle than the break it answers,
      so the bias never turns twice within one candle. */
  lemma TurnsTakeACandle(cs: seq<Candle>, w: nat, k: nat)
    requires WellFormed(cs)
    requires 0 < k < |Breaks(cs, w, |cs|)| && TagAt(Breaks(cs, w, |cs|), k).CHOCH?
    ensures Breaks(cs, w, |cs|)[k - 1].index < Breaks(cs, w, |cs|)[k].index
  {
    var bs := Breaks(cs, w, |cs|);
    BreaksAscend(cs, w, |cs|);
    assert bs[k - 1] in bs && bs[k] in bs;
    BreaksListed(cs, w, |cs|, bs[k - 1]);
    BreaksListed(cs, w, |cs|, bs[k]);
    if bs[k - 1].index == bs[k].index {
      NoCandleBreaksBothWays(cs, w, bs[k].index, bs[k - 1], bs[k]);
    }
  }

  /** Reading the tags alone: the first event is a BOS, a CHOCH marks every change of
      side and nothing else, and the bias is the side of the last event. */
  predicate TellsTheTurns(es: seq<StructureEvent>, bias: int) {
    && (es != [] ==> es[0].tag == BOS)
    && (forall k :: 0 < k < |es| ==> (es[k].tag == CHOCH <==> es[k].brk.side != es[k - 1].brk.side))
    && (bias == 0 <==> es == [])
    && (bias == 1 <==> es != [] && es[|es| - 1].brk.side.Bullish?)
    && (bias == -1 <==> es != [] && es[|es| - 1].brk.side.Bearish?)
  }

  lemma TagsTellTheTurns(bs: seq<Break>)
    ensures TellsTheTurns(Events(bs), Bias(bs))
  {
    var es := Events(bs);
    assert forall k :: 0 <= k < |es| ==> es[k] == StructureEvent(bs[k], TagAt(bs, k));
  }

  // ----- the sweep list -----

  lemma {:induction false} SweepsAtListed(d: Direction, cs: seq<Candle>, w: nat, i: nat, ps: seq<nat>, x: Sweep)
    requires i < |cs| && Confirmed(ps, w, i + 1)
    ensures x in SweepsAt(d, cs, w, i, ps) <==>
            && x.swingIndex in ps && IsSwept(d, cs, w, i, x.swingIndex)
            && x == Sweep(i, d.Opposite(), x.swingIndex, Level(d, cs[x.swingIndex]), Level(d, cs[i]))
    decreases |ps|
  {
    if ps != [] {
      var t, rest := ps[|ps| - 1], ps[..|ps| - 1];
      assert ps == rest + [t];
      SweepsAtListed(d, cs, w, i, rest, x);
    }
  }

  /** A swing confirmed by the sweep's candle, with no close past it until then, is overshot
      there by the wick while the close comes back. */
  predicate IsSweep(cs: seq<Candle>, w: nat, x: Sweep) {
    && x.index < |cs| && x.swingIndex in Pivots(x.side.Opposite(), cs, w, x.index + 1)
    && (x.side == Bearish ==>
          && x.swingPrice == cs[x.swingIndex].high && x.sweptPrice == cs[x.index].high
          && cs[x.index].high > x.swingPrice && cs[x.index].close < x.swingPrice
          && forall i :: x.swingIndex + w <= i < x.index ==> cs[i].close <= x.swingPrice)
    && (x.side == Bullish ==>
          && x.swingPrice == cs[x.swingIndex].low && x.sweptPrice == cs[x.index].low
          && cs[x.index].low < x.swingPrice && cs[x.index].close > x.swingPrice
          && forall i :: x.swingIndex + w <= i < x.index ==> cs[i].close >= x.swingPrice)
  }

  lemma IsSweepIff(cs: seq<Candle>, w: nat, x: Sweep)
    ensures
      var d := x.side.Opposite();
      IsSweep(cs, w, x) <==>
        && x.index < |cs| && x.swingIndex in Pivots(d, cs, w, x.index + 1)
        && IsSwept(d, cs, w, x.index, x.swingIndex)
        && x.swingPrice == Level(d, cs[x.swingIndex]) && x.sweptPrice == Level(d, cs[x.index])
  {
    hide Pivots;
    var d := x.side.Opposite();
    if x.index < |cs| && x.swingIndex in Pivots(d, cs, w, x.index + 1) {
      var b := BreakIndex(d, cs, w, x.swingIndex, x.index);
      var t := BreakTrigger(d, Level(d, cs[x.swingIndex]));
      assert b.None? <==> forall i :: x.swingIndex + w <= i < x.index ==> !Fires(t, cs[i]);
    }
  }

  lemma SweepsAtExact(d: Direction, cs: seq<Candle>, w: nat, i: nat, x: Sweep)
    requires i < |cs|
    ensures x in SweepsAt(d, cs, w, i, Pivots(d, cs, w, i + 1)) <==>
            x.index == i && x.side == d.Opposite() && IsSweep(cs, w, x)
  {
    hide IsSwept, SweepsAt, IsSweep;
    SweepsAtListed(d, cs, w, i, Pivots(d, cs, w, i + 1), x);
    IsSweepIff(cs, w, x);
    assert d.Opposite().Opposite() == d;
  }

  lemma SweepsOnExact(cs: seq<Candle>, w: nat, i: nat, x: Sweep)
    requires i < |cs|
    ensures x in SweepsOn(cs, w, i) <==> x.index == i && IsSweep(cs, w, x)
  {
    hide IsSweep, SweepsAt, Pivots;
    SweepsAtExact(Bearish, cs, w, i, x);
    SweepsAtExact(Bullish, cs, w, i, x);
  }

  /** The sweep list holds exactly the sweeps there are. */
  lemma {:induction false} SweepsExact(cs: seq<Candle>, w: nat, n: nat, x: Sweep)
    requires n <= |cs|
    ensures x in Sweeps(cs, w, n) <==> x.index < n && IsSweep(cs, w, x)
    decreases n
  {
    hide IsSweep, SweepsOn;
    if n > 0 {
      SweepsExact(cs, w, n - 1, x);
      SweepsOnExact(cs, w, n - 1, x);
    }
  }

  // ----- order blocks -----

  predicate Distinct(ss: seq<Seed>) {
    forall j, k :: 0 <= j < k < |ss| ==> ss[j].index != ss[k].index || ss[j].side != ss[k].side
  }

  /** One block per origin candle and direction. */
  lemma {:induction false} BlocksDistinct(cs: seq<Candle>, bs: seq<Break>)
    requires forall j :: 0 <= j < |bs| ==> bs[j].index < |cs|
    ensures Distinct(BlockSeeds(cs, bs))
    decreases |bs|
  {
    if bs != [] {
      var ss := BlockSeeds(cs, bs[..|bs| - 1]);
      BlocksDistinct(cs, bs[..|bs| - 1]);
      assert BlockSeeds(cs, bs) == ss || Distinct(BlockSeeds(cs, bs));
    }
  }

  /** A break with an origin candle has its block, dated by that break or an earlier one. */
  lemma {:induction false} BlockForEveryBreak(cs: seq<Candle>, bs: seq<Break>, k: nat) returns (j: nat)
    requires forall j :: 0 <= j < |bs| ==> bs[j].index < |cs|
    requires forall i, j :: 0 <= i < j < |bs| ==> bs[i].index <= bs[j].index
    requires k < |bs| && Origin(bs[k].side, cs, bs[k].index + 1).Some?
    ensures j < |BlockSeeds(cs, bs)|
    ensures BlockSeeds(cs, bs)[j].index == Origin(bs[k].side, cs, bs[k].index + 1).value
    ensures BlockSeeds(cs, bs)[j].side == bs[k].side && BlockSeeds(cs, bs)[j].formed <= bs[k].index
    decreases |bs|
  {
    var n := |bs| - 1;
    var ss := BlockSeeds(cs, bs[..n]);
    var o := Origin(bs[k].side, cs, bs[k].index + 1).value;
    if k < n {
      j := BlockForEveryBreak(cs, bs[..n], k);
    } else if HasSeed(ss, o, bs[k].side) {
      j :| 0 <= j < |ss| && ss[j].index == o && ss[j].side == bs[k].side;
      SeedsComeFromBreaks(cs, bs[..n], j);
    } else {
      j := |ss|;
    }
  }

  lemma {:induction false} SeedsComeFromBreaks(cs: seq<Candle>, bs: seq<Break>, j: nat)
    requires forall j :: 0 <= j < |bs| ==> bs[j].index < |cs|
    requires j < |BlockSeeds(cs, bs)|
    ensures
      var s := BlockSeeds(cs, bs)[j];
      exists k :: 0 <= k < |bs| && bs[k].index == s.formed && bs[k].side == s.side
                  && Origin(s.side, cs, s.formed + 1) == Some(s.index)
    decreases |bs|
  {
    if bs != [] {
      var n := |bs| - 1;
      if j < |BlockSeeds(cs, bs[..n])| {
        SeedsComeFromBreaks(cs, bs[..n], j);
      }
    }
  }

  /** Every order block, in the prices of the candles: anchored on the last candle, up to the
      break that formed it, that closed against the break, and a copy of that candle. */
  lemma BlockOrigins(cs: seq<Candle>, w: nat, k: nat)
    requires k < |Blocks(cs, Breaks(cs, w, |cs|), |cs|)|
    ensures
      var ob := Blocks(cs, Breaks(cs, w, |cs|), |cs|)[k];
      && ob.index <= ob.formedIndex < |cs|
      && (ob.side.Bullish? ==>
            ob.close < ob.open && forall i :: ob.index < i <= ob.formedIndex ==> cs[i].close >= cs[i].open)
      && (ob.side.Bearish? ==>
            ob.close > ob.open && forall i :: ob.index < i <= ob.formedIndex ==> cs[i].close <= cs[i].open)
      && Candle(ob.open, ob.high, ob.low, ob.close) == cs[ob.index]
      && exists j :: 0 <= j < |Breaks(cs, w, |cs|)|
                     && Breaks(cs, w, |cs|)[j].index == ob.formedIndex && Breaks(cs, w, |cs|)[j].side == ob.side
  {
    hide Breaks, Origin, BlockSeeds;
    SeedsComeFromBreaks(cs, Breaks(cs, w, |cs|), k);
  }

  /** A break leads to no block, its own or an earlier one, exactly when no candle up to it
      closed against it. */
  lemma BlockMissingIff(cs: seq<Candle>, w: nat, k: nat)
    requires k < |Breaks(cs, w, |cs|)|
    ensures
      var b, blocks := Breaks(cs, w, |cs|)[k], Blocks(cs, Breaks(cs, w, |cs|), |cs|);
      (forall j :: 0 <= j < |blocks| && blocks[j].side == b.side ==> blocks[j].formedIndex > b.index)
      <==> forall i :: 0 <= i <= b.index ==> if b.side.Bullish? then cs[i].close >= cs[i].open
                                             else cs[i].close <= cs[i].open
  {
    var bs := Breaks(cs, w, |cs|);
    var b, blocks := bs[k], Blocks(cs, bs, |cs|);
    assert b in bs;
    BreaksAscend(cs, w, |cs|);
    hide Breaks, BlockSeeds;
    if Origin(b.side, cs, b.index + 1).Some? {
      var j := BlockForEveryBreak(cs, bs, k);
      assert blocks[j].side == b.side && blocks[j].formedIndex <= b.index;
    } else {
      forall j | 0 <= j < |blocks| && blocks[j].side == b.side
        ensures blocks[j].formedIndex > b.index
      {
        BlockOrigins(cs, w, j);
      }
    }
  }

  predicate Reenters(d: Direction, level: real, c: Candle) {
    if d.Bullish? then c.low <= level else c.high >= level
  }

  /** Flag and index name the first candle of [from, |cs|) that comes back to a level. */
  predicate FlaggedAt(d: Direction, level: real, cs: seq<Candle>, from: nat, flag: bool, at: Option<nat>) {
    && (flag <==> exists i :: from <= i < |cs| && Reenters(d, level, cs[i]))
    && (flag <==> at.Some?)
    && (at.Some? ==> from <= at.value < |cs| && Reenters(d, level, cs[at.value])
                     && forall i :: from <= i < at.value ==> !Reenters(d, level, cs[i]))
  }

  lemma FirstReentry(d: Direction, level: real, cs: seq<Candle>, from: nat)
    ensures
      var r := FirstFire(cs, if d.Bullish? then LowReaches(level) else HighReaches(level), from, |cs|);
      FlaggedAt(d, level, cs, from, r.Some?, r)
  {
    var t := if d.Bullish? then LowReaches(level) else HighReaches(level);
    assert forall i :: 0 <= i < |cs| ==> (Reenters(d, level, cs[i]) <==> Fires(t, cs[i]));
  }

  lemma BlockFlag(cs: seq<Candle>, s: Seed)
    requires s.index <= s.formed < |cs|
    ensures
      var ob := BlockOf(cs, s, |cs|);
      && ob.index == s.index && ob.formedIndex == s.formed
      && FlaggedAt(ob.side, if ob.side.Bullish? then ob.high else ob.low, cs, ob.formedIndex + 1,
                   ob.mitigated, ob.mitigateIndex)
  {
    hide FlaggedAt;
    var c := cs[s.index];
    FirstReentry(s.side, if s.side.Bullish? then c.high else c.low, cs, s.formed + 1);
  }

  /** Every order block of a finished scan: mitigated exactly when some candle after the
      one that formed it touches its near edge, and then at the first one that does. */
  lemma BlockFlagsExact(cs: seq<Candle>, w: nat, k: nat)
    requires k < |Blocks(cs, Breaks(cs, w, |cs|), |cs|)|
    ensures
      var ob := Blocks(cs, Breaks(cs, w, |cs|), |cs|)[k];
      && ob.index <= ob.formedIndex < |cs|
      && FlaggedAt(ob.side, if ob.side.Bullish? then ob.high else ob.low, cs, ob.formedIndex + 1,
                   ob.mitigated, ob.mitigateIndex)
  {
    hide FlaggedAt, Breaks, BlockSeeds, BlockOf;
    BlockFlag(cs, BlockSeeds(cs, Breaks(cs, w, |cs|))[k]);
  }

  // ----- fair value gaps -----

  lemma {:induction false} GapsExact(cs: seq<Candle>, n: nat, g: GapSeed)
    requires n <= |cs|
    ensures g in GapSeeds(cs, n) <==> g.formed < n && GapForms(cs, g)
    decreases n
  {
    if n > 0 {
      GapsExact(cs, n - 1, g);
      var up, down := GapSeed(n - 1, Bullish), GapSeed(n - 1, Bearish);
      assert g == GapSeed(g.formed, if g.side.Bullish? then Bullish else Bearish);
      assert g.formed == n - 1 <==> g == up || g == down;
    }
  }

  lemma {:induction false} GapsAscend(cs: seq<Candle>, n: nat)
    requires WellFormed(cs) && n <= |cs|
    ensures forall j, k :: 0 <= j < k < |GapSeeds(cs, n)| ==> GapSeeds(cs, n)[j].formed < GapSeeds(cs, n)[k].formed
    decreases n
  {
    if n > 0 {
      GapsAscend(cs, n - 1);
      if GapForms(cs, GapSeed(n - 1, Bullish)) {
        assert cs[n - 1].WellFormed() && cs[n - 3].WellFormed();
      }
    }
  }

  /** Every gap of a finished scan: mitigated exactly when some candle after the three that
      formed it comes back to the edge price left it by, and then at the first one. */
  lemma GapFlagsExact(cs: seq<Candle>, k: nat)
    requires k < |Gaps(cs, |cs|, |cs|)|
    ensures
      var g := Gaps(cs, |cs|, |cs|)[k];
      FlaggedAt(g.side, if g.side.Bullish? then g.top else g.bottom, cs, g.index + 2, g.mitigated, g.mitigateIndex)
  {
    hide FlaggedAt, GapSeeds;
    var s := GapSeeds(cs, |cs|)[k];
    FirstReentry(s.side, if s.side.Bullish? then Top(cs, s) else Bottom(cs, s), cs, s.formed + 1);
  }

  predicate Open(cs: seq<Candle>, g: GapSeed, n: nat)
    requires n <= |cs|
  {
    GapForms(cs, g) && g.formed < n && !GapOf(cs, g, n).mitigated
  }

  /** An open Bullish gap lies wholly below an open Bearish one. */
  lemma OpenGapsKeepApart(cs: seq<Candle>, n: nat, up: GapSeed, down: GapSeed)
    requires WellFormed(cs) && n <= |cs|
    requires Open(cs, up, n) && Open(cs, down, n) && up.side.Bullish? && down.side.Bearish?
    ensures Bottom(cs, up) < Top(cs, up) < Bottom(cs, down) < Top(cs, down)
  {
    var a, b := up.formed, down.formed;
    assert cs[a].WellFormed() && cs[b].WellFormed() && cs[a - 2].WellFormed() && cs[b - 2].WellFormed();
    if a < b {
      assert !Fires(GapTrigger(cs, up), cs[b]);
    } else if b < a {
      assert !Fires(GapTrigger(cs, down), cs[a]);
    }
  }

  /** Open gaps of one side climb (Bullish) or descend (Bearish) in formation order. */
  lemma OpenGapsStack(cs: seq<Candle>, n: nat, g: GapSeed, h: GapSeed)
    requires n <= |cs|
    requires Open(cs, g, n) && Open(cs, h, n) && g.side == h.side && g.formed < h.formed
    ensures if g.side.Bullish? then Top(cs, g) < Top(cs, h) else Bottom(cs, g) > Bottom(cs, h)
  {
    assert !Fires(GapTrigger(cs, g), cs[h.formed]);
  }

  /** The whole picture at the end of a series, on the reported list. */
  lemma UnmitigatedGapGeometry(cs: seq<Candle>, j: nat, k: nat)
    requires WellFormed(cs)
    requires j < |Gaps(cs, |cs|, |cs|)| && k < |Gaps(cs, |cs|, |cs|)|
    requires !Gaps(cs, |cs|, |cs|)[j].mitigated && !Gaps(cs, |cs|, |cs|)[k].mitigated
    ensures
      var g, h := Gaps(cs, |cs|, |cs|)[j], Gaps(cs, |cs|, |cs|)[k];
      && g.bottom < g.top
      && (g.side.Bullish? && h.side.Bearish? ==> g.top < h.bottom)
      && (g.side.Bullish? && h.side.Bullish? && j < k ==> g.top < h.top)
      && (g.side.Bearish? && h.side.Bearish? && j < k ==> g.bottom > h.bottom)
  {
    var gs := GapSeeds(cs, |cs|);
    GapsAscend(cs, |cs|);
    if gs[j].side.Bullish? && gs[k].side.Bearish? {
      OpenGapsKeepApart(cs, |cs|, gs[j], gs[k]);
    } else if gs[j].side == gs[k].side && j < k {
      OpenGapsStack(cs, |cs|, gs[j], gs[k]);
    }
  }

  /** Price has never come back to an open zone: the last candle is past all of them. */
  lemma LastCandleBetweenZones(cs: seq<Candle>, n: nat, g: GapSeed)
    requires 0 < n <= |cs|
    requires Open(cs, g, n) && g.formed < n - 1
    ensures if g.side.Bullish? then Top(cs, g) < cs[n - 1].low else cs[n - 1].high < Bottom(cs, g)
  {
    assert !Fires(GapTrigger(cs, g), cs[n - 1]);
  }
}
