/** What `analyze` hands to its callers: the guard on short series, the survivors of the
    scan, and what a caller may conclude from the reported lists alone. */
module StructureReport {
  import opened Wrappers
  import opened Candles
  import opened MarketStructure
  import opened StructureScanner
  import opened StructureTheorems

  /** The members of s that satisfy p, in order. */
  function Keep<T>(s: seq<T>, p: T -> bool): (r: seq<T>)
    ensures forall k :: 0 <= k < |r| ==> r[k] in s && p(r[k])
    ensures forall x :: x in s && p(x) ==> x in r
  {
    if s == [] then []
    else
      var r := Keep(s[..|s| - 1], p);
      if p(s[|s| - 1]) then r + [s[|s| - 1]] else r
  }

  function LastUpTo<T>(s: seq<T>, k: nat): (r: seq<T>)
    ensures |r| == if |s| < k then |s| else k
    ensures forall j :: 0 <= j < |r| ==> r[j] == s[|s| - |r| + j]
  {
    if |s| <= k then s else s[|s| - k..]
  }

  datatype Recent<+T> = Recent(item: T, candlesAgo: int)

  datatype Report = Report(
    swingHighsCount: nat, swingLowsCount: nat,
    activeHighs: seq<Swing>, activeLows: seq<Swing>,
    recentBreak: Option<Recent<StructureEvent>>, recentChoch: Option<Recent<StructureEvent>>,
    trendBias: int, recentSweep: Option<Recent<Sweep>>,
    openBlocks: seq<OrderBlock>, openGaps: seq<Gap>)

  const EMPTY_REPORT := Report(0, 0, [], [], None, None, 0, None, [], [])

  function LastChoch(es: seq<StructureEvent>): (r: Option<StructureEvent>)
    ensures r.Some? <==> exists k :: 0 <= k < |es| && es[k].tag.CHOCH?
    ensures r.Some? ==> r.value.tag.CHOCH? && r.value in es
  {
    if es == [] then None
    else if es[|es| - 1].tag.CHOCH? then Some(es[|es| - 1])
    else LastChoch(es[..|es| - 1])
  }

  function ReportOf(l: Ledger, n: nat): Report {
    var es := l.tape.events;
    var choch := LastChoch(es);
    Report(
      |l.swingHighs|, |l.swingLows|,
      LastUpTo(Keep(l.swingHighs, (s: Swing) => !s.broken), 3),
      LastUpTo(Keep(l.swingLows, (s: Swing) => !s.broken), 3),
      if es == [] then None else Some(Recent(es[|es| - 1], n - 1 - es[|es| - 1].brk.index)),
      if choch.None? then None else Some(Recent(choch.value, n - 1 - choch.value.brk.index)),
      l.tape.trendBias,
      if l.sweeps == [] then None else Some(Recent(l.sweeps[|l.sweeps| - 1], n - 1 - l.sweeps[|l.sweeps| - 1].index)),
      LastUpTo(Keep(l.tape.orderBlocks, (ob: OrderBlock) => !ob.mitigated), 3),
      LastUpTo(Keep(l.gaps, (g: Gap) => !g.mitigated), 3))
  }

  /** Fewer candles than this are not analysed. */
  function MinCandles(w: nat): nat {
    if 20 > 2 * w + 1 then 20 else 2 * w + 1
  }

  method Analyze(cs: seq<Candle>, w: nat) returns (r: Report)
    ensures |cs| < 20 || |cs| < 2 * w + 1 ==> r == Report(0, 0, [], [], None, None, 0, None, [], [])
    ensures |cs| >= 20 && |cs| >= 2 * w + 1 ==> r == ReportOf(LedgerOf(cs, w, |cs|), |cs|)
  {
    if |cs| < MinCandles(w) {
      return EMPTY_REPORT;
    }
    var l := Scan(cs, w);
    r := ReportOf(l, |cs|);
  }

  // ----- which findings are reported -----

  /** r is s at ix, in order: what satisfies p, all of it or the last three. */
  ghost predicate PicksLatest<T(!new)>(r: seq<T>, s: seq<T>, p: T -> bool, ix: seq<nat>) {
    && |ix| == |r| <= 3 && (forall k :: 0 <= k < |ix| ==> ix[k] < |s| && r[k] == s[ix[k]] && p(s[ix[k]]))
    && (forall j, k :: 0 <= j < k < |ix| ==> ix[j] < ix[k])
    && (forall j :: 0 <= j < |s| && p(s[j]) && (|r| < 3 || j >= ix[0]) ==> j in ix)
  }

  ghost predicate Latest<T(!new)>(r: seq<T>, s: seq<T>, p: T -> bool) {
    exists ix :: PicksLatest(r, s, p, ix)
  }

  lemma {:induction false} KeptAt<T>(s: seq<T>, p: T -> bool) returns (ix: seq<nat>)
    ensures |ix| == |Keep(s, p)|
    ensures forall k :: 0 <= k < |ix| ==> ix[k] < |s| && Keep(s, p)[k] == s[ix[k]] && p(s[ix[k]])
    ensures forall j, k :: 0 <= j < k < |ix| ==> ix[j] < ix[k]
    ensures forall j :: 0 <= j < |s| && p(s[j]) ==> j in ix
    decreases |s|
  {
    ix := [];
    if s != [] {
      ix := KeptAt(s[..|s| - 1], p);
      if p(s[|s| - 1]) { ix := ix + [|s| - 1]; }
    }
  }

  lemma LastThreeAreLatest<T(!new)>(s: seq<T>, p: T -> bool)
    ensures Latest(LastUpTo(Keep(s, p), 3), s, p)
  {
    var all := KeptAt(s, p);
    hide Keep, PicksLatest;
    var off := if |all| > 3 then |all| - 3 else 0;
    TailOfAll(s, p, Keep(s, p), all, off);
    assert LastUpTo(Keep(s, p), 3) == Keep(s, p)[off..];
  }

  /** From off on, all the indices of what satisfies p pick the latest. */
  lemma TailOfAll<T(!new)>(s: seq<T>, p: T -> bool, kept: seq<T>, all: seq<nat>, off: nat)
    requires off <= |all| == |kept| && |all| - off <= 3 && (off > 0 ==> |all| - off == 3)
    requires forall k :: 0 <= k < |all| ==> all[k] < |s| && kept[k] == s[all[k]] && p(s[all[k]])
    requires forall j, k :: 0 <= j < k < |all| ==> all[j] < all[k]
    requires forall j :: 0 <= j < |s| && p(s[j]) ==> j in all
    ensures PicksLatest(kept[off..], s, p, all[off..])
  {
    var ix := all[off..];
    forall j | 0 <= j < |s| && p(s[j]) && (|ix| < 3 || j >= ix[0])
      ensures j in ix
    {
    }
  }

  /** The item is the last of a list, dated by the candles that have come since. */
  ghost predicate IsRecent<T>(r: Option<Recent<T>>, s: seq<T>, at: T -> int, n: nat) {
    && (r.None? <==> s == [])
    && (r.Some? ==> r.value.item == s[|s| - 1] && at(r.value.item) + r.value.candlesAgo == n - 1)
  }

  /** The whole report of a scan: counts, the latest three of each kind still open, the last
      break and sweep, the last change of character, and how long ago they were. */
  lemma ReportWritten(l: Ledger, n: nat)
    ensures
      var r, es := ReportOf(l, n), l.tape.events;
      && r.swingHighsCount == |l.swingHighs| && r.swingLowsCount == |l.swingLows|
      && Latest(r.activeHighs, l.swingHighs, (s: Swing) => !s.broken)
      && Latest(r.activeLows, l.swingLows, (s: Swing) => !s.broken)
      && Latest(r.openBlocks, l.tape.orderBlocks, (ob: OrderBlock) => !ob.mitigated)
      && Latest(r.openGaps, l.gaps, (g: Gap) => !g.mitigated)
      && IsRecent(r.recentBreak, es, (e: StructureEvent) => e.brk.index, n)
      && IsRecent(r.recentSweep, l.sweeps, (x: Sweep) => x.index, n)
      && r.trendBias == l.tape.trendBias
      && (r.recentChoch.None? <==> forall k :: 0 <= k < |es| ==> es[k].tag == BOS)
      && (r.recentChoch.Some? ==>
            exists k :: 0 <= k < |es| && es[k] == r.recentChoch.value.item && es[k].tag == CHOCH
                        && es[k].brk.index + r.recentChoch.value.candlesAgo == n - 1
                        && forall j :: k < j < |es| ==> es[j].tag == BOS)
  {
    LastThreeAreLatest(l.swingHighs, (s: Swing) => !s.broken);
    LastThreeAreLatest(l.swingLows, (s: Swing) => !s.broken);
    LastThreeAreLatest(l.tape.orderBlocks, (ob: OrderBlock) => !ob.mitigated);
    LastThreeAreLatest(l.gaps, (g: Gap) => !g.mitigated);
    hide Latest, Keep, LastUpTo;
    if LastChoch(l.tape.events).Some? {
      var k := LastChochAt(l.tape.events);
    }
  }

  lemma {:induction false} LastChochAt(es: seq<StructureEvent>) returns (k: nat)
    requires LastChoch(es).Some?
    ensures k < |es| && es[k] == LastChoch(es).value && es[k].tag == CHOCH
    ensures forall j :: k < j < |es| ==> es[j].tag == BOS
    decreases |es|
  {
    k := |es| - 1;
    if !es[k].tag.CHOCH? {
      k := LastChochAt(es[..|es| - 1]);
    }
  }

  // ----- what the reported lists say -----

  /** No close ever passed an active swing, and active highs do not lie below active lows. */
  lemma ActiveSwingsUncrossed(cs: seq<Candle>, w: nat, h: Swing, l: Swing)
    requires WellFormed(cs) && cs != []
    requires
      var r := ReportOf(LedgerOf(cs, w, |cs|), |cs|);
      h in r.activeHighs && l in r.activeLows
    ensures l.price <= cs[|cs| - 1].close <= h.price
  {
    var highs, lows := Swings(Bullish, cs, w, |cs|, |cs|), Swings(Bearish, cs, w, |cs|, |cs|);
    assert h in highs && l in lows;
    var j :| 0 <= j < |highs| && highs[j] == h;
    var k :| 0 <= k < |lows| && lows[k] == l;
    SwingFlagsExact(Bullish, cs, w, j);
    SwingFlagsExact(Bearish, cs, w, k);
    assert !Passes(Bullish, h.price, cs[|cs| - 1]) && !Passes(Bearish, l.price, cs[|cs| - 1]);
  }

  /** Reported gaps: Bullish ones lie wholly below Bearish ones. */
  lemma ReportedGapsKeepApart(cs: seq<Candle>, w: nat, g: Gap, h: Gap)
    requires WellFormed(cs)
    requires
      var r := ReportOf(LedgerOf(cs, w, |cs|), |cs|);
      g in r.openGaps && h in r.openGaps && g.side.Bullish? && h.side.Bearish?
    ensures g.bottom < g.top < h.bottom < h.top
  {
    var gaps := Gaps(cs, |cs|, |cs|);
    assert g in gaps && h in gaps && !g.mitigated && !h.mitigated;
    var j :| 0 <= j < |gaps| && gaps[j] == g;
    var k :| 0 <= k < |gaps| && gaps[k] == h;
    UnmitigatedGapGeometry(cs, j, k);
    UnmitigatedGapGeometry(cs, k, j);
  }
}
