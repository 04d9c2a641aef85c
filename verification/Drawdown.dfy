/** Maximum drawdown of the realised-PnL curve, and how it behaves under the
    chronological train/test split. */
module Drawdown {
  import opened Wrappers
  import opened Reals

  datatype Record = Record(closedAt: Option<int>, pnl: Option<real>)

  // ----- the curve -----

  /** Cumulative PnL after the first i trades. */
  function Cum(s: seq<real>, i: nat): real
    requires i <= |s|
  {
    if i == 0 then 0.0 else Cum(s, i - 1) + s[i - 1]
  }

  /** The highest of the first k points after the start. */
  predicate IsPeak(s: seq<real>, k: nat, p: real)
    requires k <= |s|
  {
    (forall i :: 0 <= i <= k ==> Cum(s, i) <= p) && (exists i :: 0 <= i <= k && Cum(s, i) == p)
  }

  /** The largest drop from a point, the start included, to a later one, up to point k. */
  predicate IsDrop(s: seq<real>, k: nat, d: real)
    requires k <= |s|
  {
    && (forall i, j :: 0 <= i <= j <= k ==> Cum(s, i) - Cum(s, j) <= d)
    && (exists i, j :: 0 <= i <= j <= k && Cum(s, i) - Cum(s, j) == d)
  }

  predicate IsMaxDrop(s: seq<real>, d: real) {
    IsDrop(s, |s|, d)
  }

  lemma PeakStep(s: seq<real>, k: nat, p: real)
    requires k < |s| && IsPeak(s, k, p)
    ensures IsPeak(s, k + 1, Max(p, Cum(s, k + 1)))
  {
    hide Cum;
    var i :| 0 <= i <= k && Cum(s, i) == p;
    var at := if p > Cum(s, k + 1) then i else k + 1;
    assert Cum(s, at) == Max(p, Cum(s, k + 1));
  }

  lemma DropStep(s: seq<real>, k: nat, p: real, d: real)
    requires k < |s| && IsPeak(s, k + 1, p) && IsDrop(s, k, d)
    ensures IsDrop(s, k + 1, Max(d, p - Cum(s, k + 1)))
  {
    hide Cum;
    var d' := Max(d, p - Cum(s, k + 1));
    forall i, j | 0 <= i <= j <= k + 1
      ensures Cum(s, i) - Cum(s, j) <= d'
    {
      if j <= k { assert Cum(s, i) - Cum(s, j) <= d; } else { assert Cum(s, i) <= p; }
    }
  }

  lemma DropStart(s: seq<real>)
    ensures Cum(s, 0) == 0.0 && IsPeak(s, 0, 0.0) && IsDrop(s, 0, 0.0)
  {
    assert Cum(s, 0) - Cum(s, 0) == 0.0;
  }

  lemma CumStep(s: seq<real>, k: nat)
    requires k < |s|
    ensures Cum(s, k + 1) == Cum(s, k) + s[k]
  {
  }

  /** The one-pass computation: running total, running peak, worst gap between them. */
  method CurveDrawdown(s: seq<real>) returns (maxDd: real)
    ensures IsMaxDrop(s, maxDd)
  {
    hide Cum, IsPeak, IsDrop, Max;
    var cum, peak := 0.0, 0.0;
    maxDd := 0.0;
    DropStart(s);
    for k := 0 to |s|
      invariant cum == Cum(s, k)
      invariant IsPeak(s, k, peak) && IsDrop(s, k, maxDd)
    {
      PeakStep(s, k, peak);
      CumStep(s, k);
      cum := cum + s[k];
      peak := Max(peak, cum);
      DropStep(s, k, peak, maxDd);
      maxDd := Max(maxDd, peak - cum);
    }
  }

  // ----- ordering -----

  /** The two orders in use: drawdown puts records without a close time last, the split
      puts them at time 0. */
  datatype Order = LastIfMissing | ZeroIfMissing

  function When(r: Record): int {
    if r.closedAt.None? then 0 else r.closedAt.value
  }

  predicate Less(o: Order, a: Record, b: Record) {
    if o.LastIfMissing? && a.closedAt.None? != b.closedAt.None? then b.closedAt.None?
    else When(a) < When(b)
  }

  predicate Ordered(o: Order, s: seq<Record>) {
    forall i, j :: 0 <= i < j < |s| ==> !Less(o, s[j], s[i])
  }

  /** x goes behind everything that is not greater. */
  function Insert(o: Order, s: seq<Record>, x: Record): seq<Record> {
    if s == [] || !Less(o, x, s[|s| - 1]) then s + [x]
    else Insert(o, s[..|s| - 1], x) + [s[|s| - 1]]
  }

  /** A stable sort. */
  function Sort(o: Order, s: seq<Record>): seq<Record> {
    if s == [] then [] else Insert(o, Sort(o, s[..|s| - 1]), s[|s| - 1])
  }

  lemma {:induction false} InsertPermutes(o: Order, s: seq<Record>, x: Record)
    ensures multiset(Insert(o, s, x)) == multiset(s) + multiset{x}
    decreases |s|
  {
    if s != [] && Less(o, x, s[|s| - 1]) {
      assert s == s[..|s| - 1] + [s[|s| - 1]];
      InsertPermutes(o, s[..|s| - 1], x);
    }
  }

  lemma {:induction false} SortPermutes(o: Order, s: seq<Record>)
    ensures multiset(Sort(o, s)) == multiset(s)
    decreases |s|
  {
    if s != [] {
      assert s == s[..|s| - 1] + [s[|s| - 1]];
      SortPermutes(o, s[..|s| - 1]);
      InsertPermutes(o, Sort(o, s[..|s| - 1]), s[|s| - 1]);
    }
  }

  lemma {:induction false} InsertOrdered(o: Order, s: seq<Record>, x: Record)
    requires Ordered(o, s)
    ensures Ordered(o, Insert(o, s, x))
    decreases |s|
  {
    if s != [] && Less(o, x, s[|s| - 1]) {
      var rest, last := s[..|s| - 1], s[|s| - 1];
      InsertOrdered(o, rest, x);
      var t := Insert(o, rest, x);
      forall k | 0 <= k < |t|
        ensures !Less(o, last, t[k])
      {
        InsertedFrom(o, rest, x, k);
      }
    }
  }

  lemma {:induction false} InsertedFrom(o: Order, s: seq<Record>, x: Record, k: nat)
    requires k < |Insert(o, s, x)|
    ensures Insert(o, s, x)[k] == x || exists i :: 0 <= i < |s| && s[i] == Insert(o, s, x)[k]
    decreases |s|
  {
    if s != [] && Less(o, x, s[|s| - 1]) && k < |Insert(o, s[..|s| - 1], x)| {
      InsertedFrom(o, s[..|s| - 1], x, k);
    }
  }

  lemma {:induction false} SortOrdered(o: Order, s: seq<Record>)
    ensures Ordered(o, Sort(o, s))
    decreases |s|
  {
    if s != [] {
      SortOrdered(o, s[..|s| - 1]);
      InsertOrdered(o, Sort(o, s[..|s| - 1]), s[|s| - 1]);
    }
  }

  lemma SortGrows(o: Order, s: seq<Record>, x: Record)
    ensures Sort(o, s + [x]) == Insert(o, Sort(o, s), x)
  {
    assert (s + [x])[..|s|] == s;
  }

  /** What is already in order is left alone. */
  lemma {:induction false} SortKeeps(o: Order, s: seq<Record>)
    requires Ordered(o, s)
    ensures Sort(o, s) == s
    decreases |s|
  {
    if s != [] {
      var rest, last := s[..|s| - 1], s[|s| - 1];
      SortKeeps(o, rest);
      assert rest != [] ==> !Less(o, last, rest[|rest| - 1]);
      assert s == rest + [last];
    }
  }

  // ----- records without a result are skipped -----

  function Realised(s: seq<Record>): (r: seq<Record>)
    ensures forall x :: x in r <==> x in s && x.pnl.Some?
  {
    if s == [] then []
    else
      var r := Realised(s[..|s| - 1]);
      if s[|s| - 1].pnl.Some? then r + [s[|s| - 1]] else r
  }

  function Pnls(s: seq<Record>): (r: seq<real>)
    ensures |r| == |s|
  {
    if s == [] then []
    else Pnls(s[..|s| - 1]) + [if s[|s| - 1].pnl.Some? then s[|s| - 1].pnl.value else 0.0]
  }

  lemma RealisedGrows(s: seq<Record>, x: Record)
    ensures Realised(s + [x]) == if x.pnl.Some? then Realised(s) + [x] else Realised(s)
  {
    assert (s + [x])[..|s|] == s;
  }

  lemma {:induction false} RealisedSplits(a: seq<Record>, b: seq<Record>)
    ensures Realised(a + b) == Realised(a) + Realised(b)
    decreases |b|
  {
    if b == [] {
      assert a + b == a;
    } else {
      var rest, x := b[..|b| - 1], b[|b| - 1];
      assert a + b == (a + rest) + [x];
      RealisedSplits(a, rest);
      RealisedGrows(a + rest, x);
    }
  }

  lemma {:induction false} PnlsSplits(a: seq<Record>, b: seq<Record>)
    ensures Pnls(a + b) == Pnls(a) + Pnls(b)
    decreases |b|
  {
    if b == [] {
      assert a + b == a;
    } else {
      var rest, x := b[..|b| - 1], b[|b| - 1];
      assert a + b == (a + rest) + [x];
      assert ((a + rest) + [x])[..|a + rest|] == a + rest;
      PnlsSplits(a, rest);
    }
  }

  // ----- a stable sort keeps ties in order, and is determined by that -----

  /** The records of one close time, in order. */
  function ClosedOn(s: seq<Record>, key: Option<int>): seq<Record> {
    if s == [] then []
    else
      var r := ClosedOn(s[..|s| - 1], key);
      if s[|s| - 1].closedAt == key then r + [s[|s| - 1]] else r
  }

  lemma {:induction false} ClosedOnSplits(a: seq<Record>, b: seq<Record>, key: Option<int>)
    ensures ClosedOn(a + b, key) == ClosedOn(a, key) + ClosedOn(b, key)
    decreases |b|
  {
    if b == [] {
      assert a + b == a;
    } else {
      var rest, x := b[..|b| - 1], b[|b| - 1];
      assert b == rest + [x] && a + b == (a + rest) + [x];
      ClosedOnSplits(a, rest, key);
    }
  }

  lemma {:induction false} ClosedOnRealised(s: seq<Record>, key: Option<int>)
    ensures ClosedOn(Realised(s), key) == Realised(ClosedOn(s, key))
    decreases |s|
  {
    if s != [] {
      var rest, x := s[..|s| - 1], s[|s| - 1];
      assert s == rest + [x];
      ClosedOnRealised(rest, key);
      RealisedGrows(rest, x);
      RealisedGrows(ClosedOn(rest, key), x);
    }
  }

  lemma {:induction false} InsertKeepsTies(o: Order, s: seq<Record>, x: Record, key: Option<int>)
    ensures ClosedOn(Insert(o, s, x), key) == ClosedOn(s + [x], key)
    decreases |s|
  {
    if s != [] && Less(o, x, s[|s| - 1]) {
      var rest, last := s[..|s| - 1], s[|s| - 1];
      assert s == rest + [last];
      InsertKeepsTies(o, rest, x, key);
    }
  }

  /** Sorting does not reorder records of one close time. */
  lemma {:induction false} SortKeepsTies(o: Order, s: seq<Record>, key: Option<int>)
    ensures ClosedOn(Sort(o, s), key) == ClosedOn(s, key)
    decreases |s|
  {
    if s != [] {
      var rest, x := s[..|s| - 1], s[|s| - 1];
      assert s == rest + [x];
      SortKeepsTies(o, rest, key);
      InsertKeepsTies(o, Sort(o, rest), x, key);
    }
  }

  lemma {:induction false} ClosedOnMember(s: seq<Record>, key: Option<int>) returns (i: nat)
    requires ClosedOn(s, key) != []
    ensures i < |s| && s[i].closedAt == key
    decreases |s|
  {
    if s[|s| - 1].closedAt == key {
      i := |s| - 1;
    } else {
      i := ClosedOnMember(s[..|s| - 1], key);
    }
  }

  ghost predicate SameTies(a: seq<Record>, b: seq<Record>) {
    forall key :: ClosedOn(a, key) == ClosedOn(b, key)
  }

  lemma LastsAgree(a: seq<Record>, b: seq<Record>)
    requires Ordered(LastIfMissing, a) && Ordered(LastIfMissing, b) && SameTies(a, b)
    requires a != [] && b != []
    ensures a[|a| - 1] == b[|b| - 1]
  {
    var x, y := a[|a| - 1], b[|b| - 1];
    assert ClosedOn(a, x.closedAt) == ClosedOn(b, x.closedAt);
    assert ClosedOn(a, y.closedAt) == ClosedOn(b, y.closedAt);
    if x.closedAt != y.closedAt {
      if Less(LastIfMissing, x, y) {
        var i := ClosedOnMember(a, y.closedAt);
      } else {
        var i := ClosedOnMember(b, x.closedAt);
      }
      assert false;
    } else {
      var ties, ties' := ClosedOn(a, x.closedAt), ClosedOn(b, x.closedAt);
      assert ties[|ties| - 1] == x && ties'[|ties'| - 1] == y;
    }
  }

  lemma CutLast(r: seq<Record>, r': seq<Record>, x: Record)
    requires r + [x] == r' + [x]
    ensures r == r'
  {
    assert |r| == |r'|;
    assert r == (r + [x])[..|r|] && r' == (r' + [x])[..|r|];
  }

  lemma DropLast(a: seq<Record>, b: seq<Record>, x: Record)
    requires SameTies(a + [x], b + [x])
    ensures SameTies(a, b)
  {
    forall key
      ensures ClosedOn(a, key) == ClosedOn(b, key)
    {
      assert ClosedOn(a + [x], key) == ClosedOn(b + [x], key);
      if x.closedAt == key { CutLast(ClosedOn(a, key), ClosedOn(b, key), x); }
    }
  }

  /** Two ordered sequences with the same ties are the same. */
  lemma {:induction false} OrderedByTies(a: seq<Record>, b: seq<Record>)
    requires Ordered(LastIfMissing, a) && Ordered(LastIfMissing, b) && SameTies(a, b)
    ensures a == b
    decreases |a|
  {
    hide Ordered, SameTies;
    if a != [] && b != [] {
      LastsAgree(a, b);
      var rest, rest' := a[..|a| - 1], b[..|b| - 1];
      assert a == rest + [a[|a| - 1]] && b == rest' + [a[|a| - 1]];
      DropLast(rest, rest', a[|a| - 1]);
      OrderedPart(a, 0, |a| - 1);
      OrderedPart(b, 0, |b| - 1);
      OrderedByTies(rest, rest');
    } else if a != [] || b != [] {
      NoTiesNoRecords(a, b);
    }
  }

  lemma OrderedPart(s: seq<Record>, i: nat, j: nat)
    requires Ordered(LastIfMissing, s) && i <= j <= |s|
    ensures Ordered(LastIfMissing, s[i..j])
  {
  }

  lemma NoTiesNoRecords(a: seq<Record>, b: seq<Record>)
    requires SameTies(a, b) && (a == [] || b == [])
    ensures a == b
  {
    var s := if a == [] then b else a;
    if s != [] {
      var key := s[|s| - 1].closedAt;
      assert ClosedOn(a, key) == ClosedOn(b, key);
    }
  }

  // ----- the metric and the split -----

  /** The records that count, in close order, those without a close time last. */
  function EquityRecords(records: seq<Record>): seq<Record> {
    Sort(LastIfMissing, Realised(records))
  }

  function EquityOrder(records: seq<Record>): seq<real> {
    Pnls(EquityRecords(records))
  }

  /** It runs over the records with a result, dated ones by close time and before the rest. */
  lemma EquityWritten(records: seq<Record>)
    ensures
      var s := EquityRecords(records);
      && multiset(s) == multiset(Realised(records)) && |EquityOrder(records)| == |s|
      && (forall k :: 0 <= k < |s| ==> s[k].pnl == Some(EquityOrder(records)[k]))
      && (forall i, j :: 0 <= i < j < |s| && s[j].closedAt.Some? ==>
            s[i].closedAt.Some? && s[i].closedAt.value <= s[j].closedAt.value)
  {
    var r := Realised(records);
    SortPermutes(LastIfMissing, r);
    SortOrdered(LastIfMissing, r);
    var s := EquityRecords(records);
    forall k | 0 <= k < |s|
      ensures s[k].pnl.Some? && Pnls(s)[k] == s[k].pnl.value
    {
      assert s[k] in multiset(s);
      PnlAt(s, k);
    }
    forall i, j | 0 <= i < j < |s| && s[j].closedAt.Some?
      ensures s[i].closedAt.Some? && s[i].closedAt.value <= s[j].closedAt.value
    {
      assert !Less(LastIfMissing, s[j], s[i]);
    }
  }

  lemma {:induction false} PnlAt(s: seq<Record>, k: nat)
    requires k < |s| && s[k].pnl.Some?
    ensures Pnls(s)[k] == s[k].pnl.value
    decreases |s|
  {
    if k < |s| - 1 { PnlAt(s[..|s| - 1], k); }
  }

  method MaxDrawdown(records: seq<Record>) returns (dd: real)
    ensures IsMaxDrop(EquityOrder(records), dd)
  {
    dd := CurveDrawdown(EquityOrder(records));
  }

  /** int(): towards zero. */
  function Truncate(x: real): int {
    if x >= 0.0 then x.Floor else -((-x).Floor)
  }

  /** Where ordered[:cut] and ordered[cut:] part; a negative cut counts from the end. */
  function SliceAt(cut: int, n: nat): (k: nat)
    ensures k <= n
  {
    if cut >= n then n else if cut >= 0 then cut else if n + cut >= 0 then n + cut else 0
  }

  datatype Split = Split(train: seq<Record>, test: seq<Record>)

  function TimeSplit(records: seq<Record>, trainFrac: real): Split {
    var ordered := Sort(ZeroIfMissing, records);
    var k := SliceAt(Truncate(|records| as real * trainFrac), |ordered|);
    Split(ordered[..k], ordered[k..])
  }

  /** Train is the whole number of records within the fraction; a negative fraction of
      a record or more takes test from the end instead, and one beyond 1 leaves a fold empty. */
  lemma SplitSize(records: seq<Record>, trainFrac: real, part: real)
    requires part == |records| as real * trainFrac
    ensures
      var s, n := TimeSplit(records, trainFrac), |records|;
      && |s.train| + |s.test| == n
      && (0.0 <= part <= n as real ==> |s.train| as real <= part < |s.train| as real + 1.0)
      && (-(n as real) <= part <= -1.0 ==> |s.test| as real <= -part < |s.test| as real + 1.0)
      && (part > n as real ==> s.test == []) && (-1.0 < part < 0.0 || part < -(n as real) ==> s.train == [])
  {
    TrainSize(records, trainFrac, part);
    hide TimeSplit, SliceAt, Truncate;
  }

  lemma TrainSize(records: seq<Record>, trainFrac: real, part: real)
    requires part == |records| as real * trainFrac
    ensures
      var s := TimeSplit(records, trainFrac);
      |s.train| == SliceAt(Truncate(part), |records|) && |s.train| + |s.test| == |records|
  {
    hide Sort, SliceAt, Truncate;
    SortPermutes(ZeroIfMissing, records);
    SameSize(Sort(ZeroIfMissing, records), records);
  }

  lemma SameSize(a: seq<Record>, b: seq<Record>)
    requires multiset(a) == multiset(b)
    ensures |a| == |b|
  {
    assert |multiset(a)| == |a| && |multiset(b)| == |b|;
  }

  /** Every record goes to exactly one fold, and no test record closed before a train one, a
      missing close time being 0. */
  lemma SplitPartitions(records: seq<Record>, trainFrac: real)
    ensures
      var s := TimeSplit(records, trainFrac);
      && multiset(s.train) + multiset(s.test) == multiset(records)
      && (forall a, b :: a in s.train && b in s.test ==>
            (if a.closedAt.Some? then a.closedAt.value else 0) <= if b.closedAt.Some? then b.closedAt.value else 0)
  {
    hide Sort, Ordered;
    var ordered := Sort(ZeroIfMissing, records);
    SortOrdered(ZeroIfMissing, records);
    SortPermutes(ZeroIfMissing, records);
    var s := TimeSplit(records, trainFrac);
    assert ordered == s.train + s.test;
    forall a, b | a in s.train && b in s.test
      ensures When(a) <= When(b)
    {
      AcrossSeam(s.train, s.test, a, b);
    }
  }

  lemma AcrossSeam(train: seq<Record>, test: seq<Record>, a: Record, b: Record)
    requires Ordered(ZeroIfMissing, train + test) && a in train && b in test
    ensures When(a) <= When(b)
  {
    var i :| 0 <= i < |train| && train[i] == a;
    var j :| 0 <= j < |test| && test[j] == b;
    assert (train + test)[i] == a && (train + test)[|train| + j] == b;
    assert !Less(ZeroIfMissing, b, a);
  }

  predicate Counts(r: Record, dated: bool) {
    r.pnl.Some? && r.closedAt.Some? == dated
  }

  /** A counting record without a close time went to train and one with a close time to test:
      the split takes the first for the older, the drawdown for the newer. */
  predicate UndatedMeetsDated(s: Split) {
    exists a, b :: a in s.train && b in s.test && Counts(a, false) && Counts(b, true)
  }

  lemma EquityMembers(s: seq<Record>, x: Record)
    ensures x in EquityRecords(s) <==> x in s && x.pnl.Some?
  {
    SortPermutes(LastIfMissing, Realised(s));
    assert x in multiset(EquityRecords(s)) <==> x in multiset(Realised(s));
  }

  lemma EquityTies(records: seq<Record>, trainFrac: real)
    ensures
      var s := TimeSplit(records, trainFrac);
      SameTies(EquityRecords(s.train) + EquityRecords(s.test), EquityRecords(records))
  {
    var s, ordered := TimeSplit(records, trainFrac), Sort(ZeroIfMissing, records);
    assert ordered == s.train + s.test;
    forall key
      ensures ClosedOn(EquityRecords(s.train) + EquityRecords(s.test), key) == ClosedOn(EquityRecords(records), key)
    {
      TiesOfFolds(records, s.train, s.test, key);
    }
  }

  lemma TiesOfFolds(records: seq<Record>, train: seq<Record>, test: seq<Record>, key: Option<int>)
    requires Sort(ZeroIfMissing, records) == train + test
    ensures ClosedOn(EquityRecords(train) + EquityRecords(test), key) == ClosedOn(EquityRecords(records), key)
  {
    hide Sort, Realised, ClosedOn;
    ClosedOnSplits(EquityRecords(train), EquityRecords(test), key);
    SortKeepsTies(LastIfMissing, Realised(train), key);
    SortKeepsTies(LastIfMissing, Realised(test), key);
    SortKeepsTies(LastIfMissing, Realised(records), key);
    ClosedOnSplits(Realised(train), Realised(test), key);
    RealisedSplits(train, test);
    ClosedOnRealised(train + test, key);
    ClosedOnRealised(records, key);
    SortKeepsTies(ZeroIfMissing, records, key);
  }

  lemma JoinOrdered(a: seq<Record>, b: seq<Record>)
    requires Ordered(LastIfMissing, a) && Ordered(LastIfMissing, b)
    ensures Ordered(LastIfMissing, a + b) <==> forall x, y :: x in a && y in b ==> !Less(LastIfMissing, y, x)
  {
    var s := a + b;
    assert forall k :: 0 <= k < |s| ==> s[k] == if k < |a| then a[k] else b[k - |a|];
    if x, y :| x in a && y in b && Less(LastIfMissing, y, x) {
      var i :| 0 <= i < |a| && a[i] == x;
      var j :| 0 <= j < |b| && b[j] == y;
      assert s[i] == x && s[|a| + j] == y;
    }
  }

  /** The folds' records, each in equity order, stay in order across the seam exactly when no
      undated one meets a dated one there. */
  lemma SeamOrdered(s: Split)
    requires forall a, b :: a in s.train && b in s.test ==> When(a) <= When(b)
    ensures Ordered(LastIfMissing, EquityRecords(s.train) + EquityRecords(s.test)) <==> !UndatedMeetsDated(s)
  {
    hide EquityRecords, Ordered;
    var a, b := EquityRecords(s.train), EquityRecords(s.test);
    EquityOrdered(s.train);
    EquityOrdered(s.test);
    JoinOrdered(a, b);
    forall x
      ensures (x in a <==> x in s.train && x.pnl.Some?) && (x in b <==> x in s.test && x.pnl.Some?)
    {
      EquityMembers(s.train, x);
      EquityMembers(s.test, x);
    }
    forall x, y | x in a && y in b
      ensures Less(LastIfMissing, y, x) <==> Counts(x, false) && Counts(y, true)
    {
      assert When(x) <= When(y);
    }
  }

  /** The folds' curves, laid end to end, are the whole curve's records in the same order if
      and only if no undated record in train meets a dated one in test. */
  lemma FoldsJoinIff(records: seq<Record>, trainFrac: real)
    ensures
      var s := TimeSplit(records, trainFrac);
      EquityRecords(records) == EquityRecords(s.train) + EquityRecords(s.test) <==> !UndatedMeetsDated(s)
  {
    hide TimeSplit, EquityRecords, Ordered, SameTies, UndatedMeetsDated;
    var s := TimeSplit(records, trainFrac);
    SplitPartitions(records, trainFrac);
    EquityTies(records, trainFrac);
    SeamOrdered(s);
    EquityOrdered(records);
    if !UndatedMeetsDated(s) {
      OrderedByTies(EquityRecords(s.train) + EquityRecords(s.test), EquityRecords(records));
    }
  }

  lemma EquityOrdered(records: seq<Record>)
    ensures Ordered(LastIfMissing, EquityRecords(records))
  {
    SortOrdered(LastIfMissing, Realised(records));
  }

  lemma {:induction false} CumJoin(a: seq<real>, b: seq<real>, i: nat)
    requires i <= |a| + |b|
    ensures Cum(a + b, i) == if i <= |a| then Cum(a, i) else Cum(a, |a|) + Cum(b, i - |a|)
  {
    if i > 0 {
      CumJoin(a, b, i - 1);
    }
  }

  /** A drop of the joined curve is a drop of one part, or splits at the seam. */
  lemma DropJoin(a: seq<real>, b: seq<real>, da: real, db: real, d: real)
    requires IsMaxDrop(a, da) && IsMaxDrop(b, db) && IsMaxDrop(a + b, d)
    ensures da <= d && db <= d && d <= da + db
  {
    forall i | 0 <= i <= |a| + |b|
      ensures Cum(a + b, i) == if i <= |a| then Cum(a, i) else Cum(a, |a|) + Cum(b, i - |a|)
    {
      CumJoin(a, b, i);
    }
    var i, j :| 0 <= i <= j <= |a| && Cum(a, i) - Cum(a, j) == da;
    assert Cum(a + b, i) - Cum(a + b, j) == da;
    var k, m :| 0 <= k <= m <= |b| && Cum(b, k) - Cum(b, m) == db;
    SeamCum(a, b, k);
    SeamCum(a, b, m);
    assert Cum(a + b, |a| + k) - Cum(a + b, |a| + m) == db;
    DropParts(a, b, da, db, d);
  }

  lemma SeamCum(a: seq<real>, b: seq<real>, k: nat)
    requires k <= |b|
    ensures Cum(a + b, |a| + k) == Cum(a, |a|) + Cum(b, k)
  {
    CumJoin(a, b, |a| + k);
  }

  lemma DropParts(a: seq<real>, b: seq<real>, da: real, db: real, d: real)
    requires IsMaxDrop(a, da) && IsMaxDrop(b, db) && IsMaxDrop(a + b, d)
    ensures d <= da + db
  {
    var i, j :| 0 <= i <= j <= |a + b| && Cum(a + b, i) - Cum(a + b, j) == d;
    CumJoin(a, b, i);
    CumJoin(a, b, j);
    assert Cum(a, 0) - Cum(a, 0) <= da && Cum(b, 0) - Cum(b, 0) <= db;
    if j <= |a| {
      assert Cum(a, i) - Cum(a, j) <= da;
    } else if i > |a| {
      assert Cum(b, i - |a|) - Cum(b, j - |a|) <= db;
    } else {
      assert Cum(a, i) - Cum(a, |a|) <= da;
      assert Cum(b, 0) - Cum(b, j - |a|) <= db;
    }
  }

  /** Then the drawdown is at least that of each fold and at most their sum; in particular
      when every record is dated. */
  lemma SplitBoundsDrawdown(records: seq<Record>, trainFrac: real, all: real, train: real, test: real)
    requires !UndatedMeetsDated(TimeSplit(records, trainFrac))
    requires IsMaxDrop(EquityOrder(records), all)
    requires IsMaxDrop(EquityOrder(TimeSplit(records, trainFrac).train), train)
    requires IsMaxDrop(EquityOrder(TimeSplit(records, trainFrac).test), test)
    ensures train <= all && test <= all && all <= train + test
  {
    hide IsMaxDrop, EquityRecords, TimeSplit, UndatedMeetsDated;
    FoldsJoinIff(records, trainFrac);
    var s := TimeSplit(records, trainFrac);
    PnlsSplits(EquityRecords(s.train), EquityRecords(s.test));
    DropJoin(EquityOrder(s.train), EquityOrder(s.test), train, test, all);
  }

  /** Without close times it need not be: the two functions then disagree on the order. */
  lemma UndatedRecordBreaksIt()
    ensures
      var records := [Record(None, Some(-10.0)), Record(Some(1), Some(-5.0)), Record(Some(2), Some(100.0))];
      var train := TimeSplit(records, 0.7).train;
      IsMaxDrop(EquityOrder(records), 10.0) && IsMaxDrop(EquityOrder(train), 15.0)
  {
    hide Insert, Sort, Realised, Pnls, IsMaxDrop;
    var a, b, c := Record(None, Some(-10.0)), Record(Some(1), Some(-5.0)), Record(Some(2), Some(100.0));
    var records := [a, b, c];
    DemoOrders(a, b, c);
    assert Truncate(3.0 * 0.7) == 2;
    assert TimeSplit(records, 0.7).train == [a, b];
    AllRealised(records);
    AllRealised([a, b]);
    PnlsOf3(b, c, a);
    PnlsOf2(b, a);
    Drop2(-5.0, -10.0);
    Drop3();
  }

  lemma DemoOrders(a: Record, b: Record, c: Record)
    requires a.closedAt.None? && b.closedAt == Some(1) && c.closedAt == Some(2)
    ensures Sort(ZeroIfMissing, [a, b, c]) == [a, b, c]
    ensures Sort(LastIfMissing, [a, b]) == [b, a] && Sort(LastIfMissing, [a, b, c]) == [b, c, a]
  {
    hide Insert, Sort;
    SortKeeps(ZeroIfMissing, [a, b, c]);
    SortKeeps(LastIfMissing, [a]);
    SortGrows(LastIfMissing, [a], b);
    InsertBefore(LastIfMissing, [], a, b);
    SortGrows(LastIfMissing, [a, b], c);
    InsertBefore(LastIfMissing, [b], a, c);
    assert [a] + [b] == [a, b] && [a, b] + [c] == [a, b, c] && [] + [a] == [a] && [b] + [a] == [b, a];
  }

  lemma InsertBefore(o: Order, s: seq<Record>, last: Record, x: Record)
    requires Less(o, x, last) && (s == [] || !Less(o, x, s[|s| - 1]))
    ensures Insert(o, s + [last], x) == s + [x, last]
  {
    assert (s + [last])[..|s|] == s;
  }

  lemma {:induction false} AllRealised(s: seq<Record>)
    requires forall k :: 0 <= k < |s| ==> s[k].pnl.Some?
    ensures Realised(s) == s
    decreases |s|
  {
    if s != [] { AllRealised(s[..|s| - 1]); }
  }

  lemma PnlsOf2(a: Record, b: Record)
    requires a.pnl.Some? && b.pnl.Some?
    ensures Pnls([a, b]) == [a.pnl.value, b.pnl.value]
  {
    assert [a, b][..1] == [a] && [a][..0] == [];
  }

  lemma PnlsOf3(a: Record, b: Record, c: Record)
    requires a.pnl.Some? && b.pnl.Some? && c.pnl.Some?
    ensures Pnls([a, b, c]) == [a.pnl.value, b.pnl.value, c.pnl.value]
  {
    assert [a, b, c][..2] == [a, b];
    PnlsOf2(a, b);
  }

  lemma Drop2(x: real, y: real)
    requires x <= 0.0 && y <= 0.0
    ensures IsMaxDrop([x, y], -x - y)
  {
    var s := [x, y];
    assert Cum(s, 0) == 0.0 && Cum(s, 1) == x && Cum(s, 2) == x + y;
  }

  lemma Drop3()
    ensures IsMaxDrop([-5.0, 100.0, -10.0], 10.0)
  {
    var s := [-5.0, 100.0, -10.0];
    assert Cum(s, 0) == 0.0 && Cum(s, 1) == -5.0 && Cum(s, 2) == 95.0 && Cum(s, 3) == 85.0;
  }
}
