/** One manager shared by N engine threads: what holds over every interleaving of their
    calls, across midnight and across restarts. */
module RiskRuns {
  import opened Wrappers
  import opened RiskGate

  // ----- the shared system -----

  datatype Outcome = Outcome(time: int, pnl: real)

  /** The manager, the engines that have passed the gate and not yet opened, and what has
      actually happened: every open, every close, the balance at the start. */
  datatype System = System(
    risk: Risk, pending: set<nat>, opens: seq<int>, closes: seq<Outcome>, start: real, now: int)

  datatype Action =
    | Check(engine: nat, q: Query)
    | Open(engine: nat)
    | GiveUp(engine: nat)
    | Close(pnl: real)
    | Kill(reason: string) | Clear | Peak(balance: real) | ForgiveLosses | Reboot

  datatype Timed = Timed(act: Action, at: int)

  function TotalPnl(cs: seq<Outcome>): real {
    if cs == [] then 0.0 else TotalPnl(cs[..|cs| - 1]) + cs[|cs| - 1].pnl
  }

  /** An engine asks only when it has no entry pending, and opens only when it has. */
  predicate Enabled(n: nat, sys: System, act: Action) {
    match act
    case Check(e, _) => e < n && e !in sys.pending
    case Open(e) => e in sys.pending
    case GiveUp(e) => e in sys.pending
    case _ => true
  }

  /** One atomic call at clock reading `now`. */
  function Do(l: Limits, sys: System, act: Action, now: int): System {
    var s := sys.(now := now);
    match act
    case Check(e, q) =>
      var c := CanTrade(l, s.risk, now, q);
      s.(risk := c.after, pending := if c.verdict.Allowed? then s.pending + {e} else s.pending)
    case Open(e) =>
      s.(risk := RecordOpen(s.risk, now), pending := s.pending - {e}, opens := s.opens + [now])
    case GiveUp(e) => s.(pending := s.pending - {e})
    case Close(pnl) =>
      var closes := s.closes + [Outcome(now, pnl)];
      s.(risk := RecordClose(l, s.risk, now, pnl, Some(s.start + TotalPnl(closes))), closes := closes)
    case Kill(reason) => s.(risk := TriggerKill(s.risk, reason))
    case Clear => s.(risk := ClearKill(s.risk))
    case Peak(b) => s.(risk := UpdatePeak(s.risk, b))
    case ForgiveLosses => s.(risk := ResetLosses(s.risk))
    case Reboot => s.(risk := Restart(s.risk), pending := {})
  }

  predicate EnginesBelow(n: nat, p: set<nat>) {
    forall e :: e in p ==> e < n
  }

  lemma {:induction false} AtMostN(n: nat, p: set<nat>)
    requires EnginesBelow(n, p)
    ensures |p| <= n
    decreases n
  {
    if n == 0 {
      assert p == {};
    } else {
      AtMostN(n - 1, p - {n - 1});
    }
  }

  // ===== 1. Velocity =====

  /** Opens later than t. */
  function Since(h: seq<int>, t: int): nat {
    if h == [] then 0 else Since(h[..|h| - 1], t) + if h[|h| - 1] > t then 1 else 0
  }

  /** Opens in the minute that starts at t. */
  function InMinute(h: seq<int>, t: int): nat {
    if h == [] then 0 else InMinute(h[..|h| - 1], t) + if t <= h[|h| - 1] < t + 60000 then 1 else 0
  }

  lemma SinceGrows(h: seq<int>, x: int, t: int)
    ensures Since(h + [x], t) == Since(h, t) + if x > t then 1 else 0
    ensures InMinute(h + [x], t) == InMinute(h, t) + if t <= x < t + 60000 then 1 else 0
  {
  }

  lemma {:induction false} SinceAntitone(h: seq<int>, t: int, t': int)
    requires t <= t'
    ensures Since(h, t') <= Since(h, t)
    decreases |h|
  {
    if h != [] { SinceAntitone(h[..|h| - 1], t, t'); }
  }

  lemma {:induction false} InMinuteSince(h: seq<int>, t: int)
    ensures InMinute(h, t) <= Since(h, t - 1)
    decreases |h|
  {
    if h != [] { InMinuteSince(h[..|h| - 1], t); }
  }

  /** Pruning drops nothing that any later look at the window could count. */
  lemma {:induction false} PruneKeepsWindow(h: seq<int>, now: int, t: int)
    requires t >= now - MINUTE_MS
    ensures Since(Prune(h, now), t) == Since(h, t)
    decreases |h|
  {
    if h != [] {
      var last, rest := h[|h| - 1], h[..|h| - 1];
      PruneKeepsWindow(rest, now, t);
      SinceGrows(Prune(rest, now), last, t);
    }
  }

  lemma {:induction false} PruneIsWindow(h: seq<int>, now: int)
    ensures |Prune(h, now)| == Since(h, now - 60000)
    decreases |h|
  {
    if h != [] { PruneIsWindow(h[..|h| - 1], now); }
  }

  /** The kept list stands in for the whole history: it counts the same opens in every
      window that can still be asked about. */
  ghost predicate Remembers(sys: System) {
    forall t: int {:trigger Since(sys.opens, t)} ::
      t >= sys.now - MINUTE_MS ==> Since(sys.risk.recent, t) == Since(sys.opens, t)
  }

  /** Counting from the last successful check, opens plus pending entries stay within
      one below the limit plus the number of engines. */
  ghost predicate Paced(l: Limits, n: nat, sys: System, lastCheck: int) {
    && lastCheck <= sys.now
    && Since(sys.opens, lastCheck - MINUTE_MS) + |sys.pending| <= l.maxOrdersPerMinute - 1 + n
  }

  ghost predicate MinutesBounded(l: Limits, n: nat, h: seq<int>) {
    forall t: int :: InMinute(h, t) <= l.maxOrdersPerMinute - 1 + n
  }

  ghost predicate VelocityInv(l: Limits, n: nat, sys: System, lastCheck: int) {
    && EnginesBelow(n, sys.pending)
    && Remembers(sys) && Paced(l, n, sys, lastCheck) && MinutesBounded(l, n, sys.opens)
  }

  lemma CheckKeepsVelocity(l: Limits, n: nat, sys: System, lastCheck: int, e: nat, q: Query, now: int)
    returns (check: int)
    requires !l.disabled && l.maxOrdersPerMinute > 0 && n > 0
    requires VelocityInv(l, n, sys, lastCheck) && Enabled(n, sys, Check(e, q)) && sys.now <= now
    ensures VelocityInv(l, n, Do(l, sys, Check(e, q), now), check)
  {
    hide MinutesBounded, LaterRules, NewDay;
    var sys' := Do(l, sys, Check(e, q), now);
    assert sys'.risk.recent == sys.risk.recent || sys'.risk.recent == Prune(sys.risk.recent, now);
    forall t: int | t >= now - MINUTE_MS
      ensures Since(sys'.risk.recent, t) == Since(sys'.opens, t)
    {
      PruneKeepsWindow(sys.risk.recent, now, t);
      assert Since(sys.risk.recent, t) == Since(sys.opens, t);
    }
    check := lastCheck;
    AtMostN(n, sys'.pending);
    if sys'.pending != sys.pending {
      check := now;
      PruneIsWindow(sys.risk.recent, now);
      assert Since(sys.risk.recent, now - MINUTE_MS) == Since(sys.opens, now - MINUTE_MS);
    }
  }

  /** One pending entry opening cannot overfill any minute. */
  lemma OpenKeepsMinutes(l: Limits, n: nat, h: seq<int>, pending: nat, lastCheck: int, now: int)
    requires MinutesBounded(l, n, h) && lastCheck <= now && pending > 0
    requires Since(h, lastCheck - MINUTE_MS) + pending <= l.maxOrdersPerMinute - 1 + n
    ensures MinutesBounded(l, n, h + [now])
  {
    forall t: int
      ensures InMinute(h + [now], t) <= l.maxOrdersPerMinute - 1 + n
    {
      SinceGrows(h, now, t);
      assert InMinute(h, t) <= l.maxOrdersPerMinute - 1 + n;
      if t <= now < t + MINUTE_MS {
        InMinuteSince(h, t);
        SinceAntitone(h, lastCheck - MINUTE_MS, t - 1);
      }
    }
  }

  lemma OpenKeepsMemory(recent: seq<int>, h: seq<int>, now: int, t: int)
    requires Since(recent, t) == Since(h, t)
    ensures Since(recent + [now], t) == Since(h + [now], t)
  {
  }

  lemma OpenKeepsVelocity(l: Limits, n: nat, sys: System, lastCheck: int, e: nat, now: int)
    requires VelocityInv(l, n, sys, lastCheck) && e in sys.pending && sys.now <= now
    ensures VelocityInv(l, n, Do(l, sys, Open(e), now), lastCheck)
  {
    hide NewDay, Since, InMinute, MinutesBounded;
    var sys' := Do(l, sys, Open(e), now);
    OpenKeepsMinutes(l, n, sys.opens, |sys.pending|, lastCheck, now);
    forall t: int | t >= now - MINUTE_MS
      ensures Since(sys'.risk.recent, t) == Since(sys'.opens, t)
    {
      assert Since(sys.risk.recent, t) == Since(sys.opens, t);
      OpenKeepsMemory(sys.risk.recent, sys.opens, now, t);
    }
    SinceGrows(sys.opens, now, lastCheck - MINUTE_MS);
  }

  /** A restart loses the list; nothing is lost if and only if the last minute was empty. */
  lemma RestartForgetsMinute(l: Limits, sys: System, now: int)
    ensures Remembers(Do(l, sys, Reboot, now)) <==> Since(sys.opens, now - 60000) == 0
  {
    var sys' := Do(l, sys, Reboot, now);
    assert sys'.risk.recent == [] && sys'.opens == sys.opens;
    if Since(sys.opens, now - MINUTE_MS) == 0 {
      forall t: int | t >= now - MINUTE_MS
        ensures Since(sys'.risk.recent, t) == Since(sys'.opens, t)
      {
        SinceAntitone(sys.opens, now - MINUTE_MS, t);
      }
    } else {
      assert Since([], now - MINUTE_MS) != Since(sys'.opens, now - MINUTE_MS);
    }
  }

  /** A restart that finds the last minute empty. */
  predicate LosesNothing(sys: System, t: Timed) {
    t.act.Reboot? ==> Since(sys.opens, t.at - 60000) == 0
  }

  /** Every call keeps the pace, restarts that lose nothing included. */
  lemma StepKeepsVelocity(l: Limits, n: nat, sys: System, lastCheck: int, act: Action, now: int)
    returns (check: int)
    requires !l.disabled && l.maxOrdersPerMinute > 0 && n > 0
    requires VelocityInv(l, n, sys, lastCheck) && Enabled(n, sys, act) && sys.now <= now
    requires LosesNothing(sys, Timed(act, now))
    ensures VelocityInv(l, n, Do(l, sys, act, now), check)
  {
    check := lastCheck;
    if act.Reboot? {
      RestartForgetsMinute(l, sys, now);
    } else if act.Check? {
      check := CheckKeepsVelocity(l, n, sys, lastCheck, act.engine, act.q, now);
    } else if act.Open? {
      OpenKeepsVelocity(l, n, sys, lastCheck, act.engine, now);
    } else {
      hide Since, InMinute, NewDay, CloseCounters;
      QuietKeepsVelocity(l, n, sys, lastCheck, act, now);
    }
  }

  lemma QuietKeepsVelocity(l: Limits, n: nat, sys: System, lastCheck: int, act: Action, now: int)
    requires VelocityInv(l, n, sys, lastCheck) && Enabled(n, sys, act) && sys.now <= now
    requires !act.Reboot? && !act.Check? && !act.Open?
    ensures VelocityInv(l, n, Do(l, sys, act, now), lastCheck)
  {
  }

  lemma SmallerSet(a: set<nat>, b: set<nat>)
    requires a <= b
    ensures |a| <= |b|
  {
    if a != b {
      assert b == a + (b - a);
    }
  }

  // ----- runs -----

  /** A system fresh from its state file: nothing pending, nothing opened yet. */
  predicate Starting(sys: System) {
    sys.pending == {} && sys.opens == [] && sys.risk.recent == [] && sys.closes == []
    && sys.risk == Restart(Risk(FRESH, [], None))
  }

  /** A process that has just started, from whatever its state file holds: it remembers
      no open, and `opens` collects its own. */
  predicate JustStarted(sys: System) {
    sys.pending == {} && sys.opens == [] && sys.risk.recent == []
  }

  /** The calls in order, each enabled, under one monotone clock. */
  ghost predicate Run(l: Limits, n: nat, ss: seq<System>, ts: seq<Timed>) {
    && |ss| == |ts| + 1
    && forall k :: 0 <= k < |ts| ==>
         Enabled(n, ss[k], ts[k].act) && ss[k].now <= ts[k].at && ss[k + 1] == Do(l, ss[k], ts[k].act, ts[k].at)
  }

  lemma RunLength(l: Limits, n: nat, ss: seq<System>, ts: seq<Timed>)
    requires Run(l, n, ss, ts)
    ensures |ss| == |ts| + 1
  {
  }

  lemma {:induction false} RunVelocity(l: Limits, n: nat, ss: seq<System>, ts: seq<Timed>, k: nat)
    returns (check: int)
    requires !l.disabled && l.maxOrdersPerMinute > 0 && n > 0
    requires Run(l, n, ss, ts) && JustStarted(ss[0]) && k < |ss|
    requires forall j :: 0 <= j < k ==> LosesNothing(ss[j], ts[j])
    ensures VelocityInv(l, n, ss[k], check)
    decreases k
  {
    if k == 0 {
      check := ss[0].now;
    } else {
      hide VelocityInv, Do, Enabled, JustStarted, LosesNothing;
      var before := RunVelocity(l, n, ss, ts, k - 1);
      check := StepKeepsVelocity(l, n, ss[k - 1], before, ts[k - 1].act, ts[k - 1].at);
    }
  }

  /** However the threads interleave, and however often the process restarts after an empty
      minute, no 60-second window holds more than the limit plus N - 1 opens; with one engine
      the limit is exact. */
  lemma VelocityLimit(l: Limits, n: nat, ss: seq<System>, ts: seq<Timed>, k: nat, t: int)
    requires !l.disabled && l.maxOrdersPerMinute > 0 && n > 0
    requires Run(l, n, ss, ts) && JustStarted(ss[0]) && k < |ss|
    requires forall j :: 0 <= j < k ==> LosesNothing(ss[j], ts[j])
    ensures InMinute(ss[k].opens, t) <= l.maxOrdersPerMinute + n - 1
  {
    hide Run, JustStarted, LosesNothing;
    var check := RunVelocity(l, n, ss, ts, k);
  }

  /** Any other restart can break the limit: one engine, one open a minute, and two opens
      at once with a restart between them. */
  lemma RestartOverruns(l: Limits, start: real, now: int)
    requires !l.disabled && l.maxOrdersPerMinute == 1 && l.maxDaily >= 2 && l.maxConsecutive > 0
    ensures
      var q := Query(None, None, 0.0);
      var s0 := System(Restart(Risk(FRESH, [], None)), {}, [], [], start, now);
      var s1 := Do(l, s0, Check(0, q), now);
      var s2 := Do(l, s1, Open(0), now);
      var s3 := Do(l, s2, Reboot, now);
      var s4 := Do(l, s3, Check(0, q), now);
      var s5 := Do(l, s4, Open(0), now);
      && Starting(s0) && Enabled(1, s0, Check(0, q)) && Enabled(1, s1, Open(0))
      && CanTrade(l, s2.risk, now, q).verdict.Velocity?
      && Enabled(1, s3, Check(0, q)) && Enabled(1, s4, Open(0))
      && InMinute(s5.opens, now) == 2
  {
    hide Day;
    SinceGrows([], now, now);
    SinceGrows([now], now, now);
    assert [] + [now] == [now];
    assert Prune([now], now) == [now] by { assert [now][..0] == []; }
  }

  // ===== 2. The daily limit =====

  function OnDay(h: seq<int>, d: int): nat {
    if h == [] then 0 else OnDay(h[..|h| - 1], d) + if h[|h| - 1] / 86400000 == d then 1 else 0
  }

  function PnlOnDay(cs: seq<Outcome>, d: int): real {
    if cs == [] then 0.0
    else PnlOnDay(cs[..|cs| - 1], d) + if cs[|cs| - 1].time / 86400000 == d then cs[|cs| - 1].pnl else 0.0
  }

  lemma {:induction false} NothingLater(h: seq<int>, cs: seq<Outcome>, d: int)
    requires forall k :: 0 <= k < |h| ==> Day(h[k]) < d
    requires forall k :: 0 <= k < |cs| ==> Day(cs[k].time) < d
    ensures OnDay(h, d) == 0 && PnlOnDay(cs, d) == 0.0
    decreases |h| + |cs|
  {
    if h != [] { NothingLater(h[..|h| - 1], cs, d); }
    else if cs != [] { NothingLater(h, cs[..|cs| - 1], d); }
  }

  /** The counters are those of their own date, and nothing has happened since. */
  predicate Tallies(c: Counters, h: seq<int>, cs: seq<Outcome>, today: int) {
    match c.lastDate
    case None => h == [] && cs == [] && c.dailyCount == 0 && c.dailyPnl == 0.0
    case Some(d) =>
      && d <= today
      && (forall k :: 0 <= k < |h| ==> Day(h[k]) <= d) && (forall k :: 0 <= k < |cs| ==> Day(cs[k].time) <= d)
      && c.dailyCount == OnDay(h, d) && c.dailyPnl == PnlOnDay(cs, d)
  }

  /** Rolling the counters over at midnight keeps them true. */
  lemma NewDayTallies(c: Counters, h: seq<int>, cs: seq<Outcome>, now: int)
    requires Tallies(c, h, cs, Day(now))
    ensures Tallies(NewDay(c, now), h, cs, Day(now)) && NewDay(c, now).lastDate == Some(Day(now))
  {
    if c.lastDate != Some(Day(now)) {
      NothingLater(h, cs, Day(now));
    }
  }

  /** Memory and state file both tally. */
  predicate BooksTally(sys: System) {
    && Tallies(sys.risk.mem, sys.opens, sys.closes, Day(sys.now))
    && Tallies(if sys.risk.disk.Some? then sys.risk.disk.value else FRESH, sys.opens, sys.closes, Day(sys.now))
  }

  lemma DayMonotone(a: int, b: int)
    requires a <= b
    ensures Day(a) <= Day(b)
  {
  }

  lemma LaterTallies(c: Counters, h: seq<int>, cs: seq<Outcome>, d: int, d': int)
    requires Tallies(c, h, cs, d) && d <= d'
    ensures Tallies(c, h, cs, d')
  {
  }

  lemma OpenTallies(c: Counters, h: seq<int>, cs: seq<Outcome>, now: int)
    requires Tallies(c, h, cs, Day(now)) && c.lastDate == Some(Day(now))
    ensures Tallies(c.(dailyCount := c.dailyCount + 1), h + [now], cs, Day(now))
  {
  }

  lemma CloseTallies(c: Counters, h: seq<int>, cs: seq<Outcome>, now: int, pnl: real)
    requires Tallies(c, h, cs, Day(now)) && c.lastDate == Some(Day(now))
    ensures Tallies(CloseCounters(c, now, pnl), h, cs + [Outcome(now, pnl)], Day(now))
  {
  }

  /** Every call, restarts included, keeps memory and file in tally with what happened. */
  lemma StepTallies(l: Limits, n: nat, sys: System, act: Action, now: int)
    requires BooksTally(sys) && Enabled(n, sys, act) && sys.now <= now
    ensures BooksTally(Do(l, sys, act, now))
  {
    hide Tallies, NewDay, CloseCounters, Prune, LaterRules, Day, DailyLossHit, TotalPnl;
    var mem, h, cs := sys.risk.mem, sys.opens, sys.closes;
    DayMonotone(sys.now, now);
    LaterTallies(mem, h, cs, Day(sys.now), Day(now));
    LaterTallies(if sys.risk.disk.Some? then sys.risk.disk.value else FRESH, h, cs, Day(sys.now), Day(now));
    NewDayTallies(mem, h, cs, now);
    var c := NewDay(mem, now);
    match act {
      case Open(e) =>
        OpenTallies(c, h, cs, now);
      case Close(pnl) =>
        CloseTallies(c, h, cs, now, pnl);
        SameTally(CloseCounters(c, now, pnl), h, cs + [Outcome(now, pnl)], Day(now));
      case _ =>
        SameTally(mem, h, cs, Day(now));
    }
  }

  /** The tally reads only the daily counters. */
  lemma SameTally(c: Counters, h: seq<int>, cs: seq<Outcome>, d: int)
    requires Tallies(c, h, cs, d)
    ensures forall c': Counters ::
      c'.dailyCount == c.dailyCount && c'.dailyPnl == c.dailyPnl && c'.lastDate == c.lastDate
      ==> Tallies(c', h, cs, d)
  {
  }

  /** Today's opens plus pending entries stay within one below the limit plus N. */
  predicate DayPaced(l: Limits, n: nat, count: nat, pending: set<nat>) {
    count + |pending| <= l.maxDaily - 1 + n && (pending != {} ==> l.maxDaily >= 1)
  }

  ghost predicate DaysBounded(l: Limits, n: nat, h: seq<int>) {
    forall d: int {:trigger OnDay(h, d)} :: OnDay(h, d) <= l.maxDaily - 1 + n
  }

  ghost predicate DailyInv(l: Limits, n: nat, sys: System) {
    && EnginesBelow(n, sys.pending) && BooksTally(sys)
    && DayPaced(l, n, sys.risk.mem.dailyCount, sys.pending) && DaysBounded(l, n, sys.opens)
  }

  /** Rolling over to a new day only helps. */
  lemma NewDayPaced(l: Limits, n: nat, c: Counters, now: int, pending: set<nat>)
    requires n > 0 && l.maxDaily >= 0 && EnginesBelow(n, pending) && DayPaced(l, n, c.dailyCount, pending)
    ensures DayPaced(l, n, NewDay(c, now).dailyCount, pending)
  {
  }

  lemma CheckKeepsDay(l: Limits, n: nat, sys: System, e: nat, q: Query, now: int)
    requires !l.disabled && l.maxDaily >= 0 && n > 0
    requires DailyInv(l, n, sys) && Enabled(n, sys, Check(e, q))
    ensures DayPaced(l, n, Do(l, sys, Check(e, q), now).risk.mem.dailyCount, Do(l, sys, Check(e, q), now).pending)
  {
    hide Tallies, DaysBounded, Prune, LaterRules;
    NewDayPaced(l, n, sys.risk.mem, now, sys.pending);
    AtMostN(n, sys.pending + {e});
  }

  lemma OpenKeepsDays(l: Limits, n: nat, h: seq<int>, cs: seq<Outcome>, c: Counters, pending: set<nat>, now: int)
    requires DaysBounded(l, n, h) && Tallies(c, h, cs, Day(now)) && c.lastDate == Some(Day(now))
    requires DayPaced(l, n, c.dailyCount, pending) && pending != {}
    ensures DaysBounded(l, n, h + [now])
  {
  }

  /** What a restart finds in the file is a day's true count, so it is within the bound. */
  lemma RebootKeepsDay(l: Limits, n: nat, sys: System)
    requires n > 0 && l.maxDaily >= 0 && DailyInv(l, n, sys)
    ensures DayPaced(l, n, Restart(sys.risk).mem.dailyCount, {})
  {
  }

  lemma StepKeepsDays(l: Limits, n: nat, sys: System, act: Action, now: int)
    requires n > 0 && l.maxDaily >= 0
    requires DailyInv(l, n, sys) && Enabled(n, sys, act) && sys.now <= now
    ensures DaysBounded(l, n, Do(l, sys, act, now).opens)
  {
    hide Tallies, NewDay, DaysBounded, CloseCounters, TotalPnl, DailyLossHit, Prune, LaterRules, DayPaced, Day;
    if act.Open? {
      TallyNow(sys, now);
      NewDayTallies(sys.risk.mem, sys.opens, sys.closes, now);
      NewDayPaced(l, n, sys.risk.mem, now, sys.pending);
      OpenKeepsDays(l, n, sys.opens, sys.closes, NewDay(sys.risk.mem, now), sys.pending, now);
    }
  }

  lemma StepKeepsDayPace(l: Limits, n: nat, sys: System, act: Action, now: int)
    requires !l.disabled && l.maxDaily >= 0 && n > 0
    requires DailyInv(l, n, sys) && Enabled(n, sys, act)
    ensures
      var sys' := Do(l, sys, act, now);
      EnginesBelow(n, sys'.pending) && DayPaced(l, n, sys'.risk.mem.dailyCount, sys'.pending)
  {
    hide BooksTally, NewDay, DaysBounded, TotalPnl, DailyLossHit, Prune, LaterRules;
    NewDayPaced(l, n, sys.risk.mem, now, sys.pending);
    if act.Check? {
      CheckKeepsDay(l, n, sys, act.engine, act.q, now);
    } else if act.Reboot? {
      RebootKeepsDay(l, n, sys);
    } else if act.GiveUp? {
      SmallerSet(sys.pending - {act.engine}, sys.pending);
    }
  }

  /** Every call, restarts included, keeps the daily bound. */
  lemma StepKeepsDay(l: Limits, n: nat, sys: System, act: Action, now: int)
    requires !l.disabled && l.maxDaily >= 0 && n > 0
    requires DailyInv(l, n, sys) && Enabled(n, sys, act) && sys.now <= now
    ensures DailyInv(l, n, Do(l, sys, act, now))
  {
    hide Do, BooksTally, DaysBounded, DayPaced, EnginesBelow;
    StepTallies(l, n, sys, act, now);
    StepKeepsDayPace(l, n, sys, act, now);
    StepKeepsDays(l, n, sys, act, now);
  }

  lemma TallyNow(sys: System, now: int)
    requires BooksTally(sys) && sys.now <= now
    ensures Tallies(sys.risk.mem, sys.opens, sys.closes, Day(now))
  {
  }

  lemma {:induction false} RunDaily(l: Limits, n: nat, ss: seq<System>, ts: seq<Timed>, k: nat)
    requires !l.disabled && l.maxDaily >= 0 && n > 0
    requires Run(l, n, ss, ts) && Starting(ss[0]) && k < |ss|
    ensures DailyInv(l, n, ss[k])
    decreases k
  {
    if k > 0 {
      hide DailyInv, Do, Enabled, Starting;
      RunDaily(l, n, ss, ts, k - 1);
      StepKeepsDay(l, n, ss[k - 1], ts[k - 1].act, ts[k - 1].at);
    }
  }

  /** However the threads interleave and the process restarts, no UTC day holds more than
      the daily limit plus N - 1 opens; with one engine the limit is exact. */
  lemma DailyLimitHolds(l: Limits, n: nat, ss: seq<System>, ts: seq<Timed>, k: nat, d: int)
    requires !l.disabled && l.maxDaily >= 0 && n > 0
    requires Run(l, n, ss, ts) && Starting(ss[0]) && k < |ss|
    ensures OnDay(ss[k].opens, d) <= l.maxDaily + n - 1
  {
    hide Run, Starting, BooksTally;
    RunDaily(l, n, ss, ts, k);
  }

  /** Nothing in the gate objects, judged on the full history of opens and closes. */
  predicate NoObjection(l: Limits, sys: System, now: int, q: Query) {
    var c := sys.risk.mem;
    && !c.killSwitch
    && OnDay(sys.opens, Day(now)) < l.maxDaily
    && (l.maxOrdersPerMinute <= 0 || Since(sys.opens, now - 60000) < l.maxOrdersPerMinute)
    && (q.initialDaily.None? || q.initialDaily.value == 0.0
        || PnlOnDay(sys.closes, Day(now)) > -q.initialDaily.value * l.maxDailyDrawdownPct)
    && c.consecutiveLosses < l.maxConsecutive
    && !(c.lastLossTime.Some? && c.lastLossTime.value != 0 && now < c.lastLossTime.value + l.cooldownMs)
    && !(q.balance.Some? && c.peak.Some? && c.peak.value > 0.0
         && c.peak.value - q.balance.value >= l.maxDrawdownPct * c.peak.value)
    && !(q.balance.Some? && q.balance.value > 0.0 && q.totalNotional > l.maxPortfolioLeverage * q.balance.value)
  }

  lemma QuotientCompares(x: real, y: real, f: real)
    requires y > 0.0
    ensures x / y >= f <==> x >= f * y
    ensures x / y > f <==> x > f * y
  {
    var q := x / y;
    assert q * y == x;
    assert q >= f ==> q * y >= f * y;
    assert q < f ==> q * y < f * y;
    assert q > f ==> q * y > f * y;
    assert q <= f ==> q * y <= f * y;
  }

  /** The three rules that read times and balances, written out. */
  lemma RulesWritten(l: Limits, c: Counters, now: int, q: Query)
    ensures CoolingDown(l, c, now) <==>
            c.lastLossTime.Some? && c.lastLossTime.value != 0 && now < c.lastLossTime.value + l.cooldownMs
    ensures DrawnDown(l, c, q.balance) <==>
            q.balance.Some? && c.peak.Some? && c.peak.value > 0.0
            && c.peak.value - q.balance.value >= l.maxDrawdownPct * c.peak.value
    ensures OverLeveraged(l, q) <==>
            q.balance.Some? && q.balance.value > 0.0 && q.totalNotional > l.maxPortfolioLeverage * q.balance.value
  {
    if q.balance.Some? && c.peak.Some? && c.peak.value > 0.0 {
      QuotientCompares(c.peak.value - q.balance.value, c.peak.value, l.maxDrawdownPct);
    }
    if q.balance.Some? && q.balance.value > 0.0 {
      QuotientCompares(q.totalNotional, q.balance.value, l.maxPortfolioLeverage);
    }
  }

  /** The gate answers from its pruned list and rolled counters exactly as the full history
      would: it allows a trade if and only if no rule objects. */
  lemma GateAllowsIff(l: Limits, sys: System, now: int, q: Query)
    requires !l.disabled && Remembers(sys) && BooksTally(sys) && sys.now <= now
    ensures CanTrade(l, sys.risk, now, q).verdict.Allowed? <==> NoObjection(l, sys, now, q)
  {
    hide Tallies, Prune, OnDay, PnlOnDay, Since, Day, CoolingDown, DrawnDown, OverLeveraged;
    RulesWritten(l, NewDay(sys.risk.mem, now), now, q);
    TallyNow(sys, now);
    NewDayTallies(sys.risk.mem, sys.opens, sys.closes, now);
    DayCountsAre(NewDay(sys.risk.mem, now), sys.opens, sys.closes, Day(now));
    PruneIsWindow(sys.risk.recent, now);
    assert Since(sys.risk.recent, now - MINUTE_MS) == Since(sys.opens, now - MINUTE_MS);
    assert NewDay(sys.risk.mem, now) ==
      sys.risk.mem.(dailyCount := OnDay(sys.opens, Day(now)), dailyPnl := PnlOnDay(sys.closes, Day(now)),
                    lastDate := Some(Day(now)));
  }

  lemma DayCountsAre(c: Counters, h: seq<int>, cs: seq<Outcome>, d: int)
    requires Tallies(c, h, cs, d) && c.lastDate == Some(d)
    ensures c.dailyCount == OnDay(h, d) && c.dailyPnl == PnlOnDay(cs, d)
  {
  }

  // ===== 3. The latch =====

  /** The switch is thrown in memory and in the file a restart would read. */
  predicate KillHolds(s: Risk) {
    s.mem.killSwitch && s.disk.Some? && s.disk.value.killSwitch
  }

  lemma StepLatched(l: Limits, sys: System, act: Action, now: int)
    requires KillHolds(sys.risk) && !act.Clear?
    ensures KillHolds(Do(l, sys, act, now).risk)
    ensures act.Check? && !l.disabled ==> CanTrade(l, sys.risk, now, act.q).verdict == KillSwitch
  {
  }

  /** Once thrown, no check succeeds until an explicit clear: across midnight and restarts. */
  lemma {:induction false} RunLatched(l: Limits, n: nat, ss: seq<System>, ts: seq<Timed>, j: nat, k: nat)
    requires Run(l, n, ss, ts) && j <= k < |ss| && KillHolds(ss[j].risk)
    requires forall i :: j <= i < k ==> !ts[i].act.Clear?
    ensures KillHolds(ss[k].risk)
    ensures k < |ts| && ts[k].act.Check? && !l.disabled ==>
            CanTrade(l, ss[k].risk, ts[k].at, ts[k].act.q).verdict == KillSwitch
    decreases k
  {
    hide KillHolds, Do, Enabled;
    if j < k {
      RunLatched(l, n, ss, ts, j, k - 1);
      StepLatched(l, ss[k - 1], ts[k - 1].act, ts[k - 1].at);
    }
    if k < |ts| && !ts[k].act.Clear? {
      StepLatched(l, ss[k], ts[k].act, ts[k].at);
    }
  }

  /** Realised before day d. */
  function PnlBefore(cs: seq<Outcome>, d: int): real {
    if cs == [] then 0.0
    else PnlBefore(cs[..|cs| - 1], d) + if Day(cs[|cs| - 1].time) < d then cs[|cs| - 1].pnl else 0.0
  }

  lemma {:induction false} PnlSplits(cs: seq<Outcome>, d: int)
    requires forall k :: 0 <= k < |cs| ==> Day(cs[k].time) <= d
    ensures TotalPnl(cs) == PnlBefore(cs, d) + PnlOnDay(cs, d)
    decreases |cs|
  {
    if cs != [] { PnlSplits(cs[..|cs| - 1], d); }
  }

  /** The balance the day opened with. */
  function Opening(sys: System, d: int): real {
    sys.start + PnlBefore(sys.closes, d)
  }

  /** If every balance change goes through record_close, a close throws the switch exactly
      when it takes the day's loss to the limit, a share of the day's true opening balance
      (or the switch was thrown already). */
  lemma CloseTripsIff(l: Limits, sys: System, pnl: real, now: int)
    requires BooksTally(sys) && sys.now <= now
    ensures
      var sys' := Do(l, sys, Close(pnl), now);
      var dayPnl, opening := PnlOnDay(sys'.closes, Day(now)), Opening(sys', Day(now));
      opening != 0.0 ==>
        && (sys'.risk.mem.killSwitch <==>
            sys.risk.mem.killSwitch || dayPnl <= -opening * l.maxDailyDrawdownPct)
        && (dayPnl <= -opening * l.maxDailyDrawdownPct ==> KillHolds(sys'.risk))
  {
    hide Tallies, OnDay, Day;
    var mem, cs := sys.risk.mem, sys.closes + [Outcome(now, pnl)];
    TallyNow(sys, now);
    NewDayTallies(mem, sys.opens, sys.closes, now);
    var c := NewDay(mem, now);
    CloseTallies(c, sys.opens, sys.closes, now, pnl);
    DayPnlIs(CloseCounters(c, now, pnl), sys.opens, cs, Day(now));
    PnlSplits(cs, Day(now));
  }

  lemma DayPnlIs(c: Counters, h: seq<int>, cs: seq<Outcome>, d: int)
    requires Tallies(c, h, cs, d) && c.lastDate == Some(d)
    ensures c.dailyPnl == PnlOnDay(cs, d) && forall k :: 0 <= k < |cs| ==> Day(cs[k].time) <= d
  {
  }

  /** The whole story of a losing day: the close that reaches the limit shuts the gate
      for good, whatever happens next short of a clear. */
  lemma DailyLossLatches(l: Limits, n: nat, ss: seq<System>, ts: seq<Timed>, j: nat, k: nat)
    requires !l.disabled && l.maxDaily >= 0 && n > 0
    requires Run(l, n, ss, ts) && Starting(ss[0]) && j < k < |ts|
    requires ts[j].act.Close?
    requires
      var d := Day(ts[j].at);
      var opening := Opening(ss[j + 1], d);
      opening > 0.0 && PnlOnDay(ss[j + 1].closes, d) <= -opening * l.maxDailyDrawdownPct
    requires forall i :: j < i < k ==> !ts[i].act.Clear?
    requires ts[k].act.Check?
    ensures CanTrade(l, ss[k].risk, ts[k].at, ts[k].act.q).verdict == KillSwitch
  {
    hide Do, Enabled, Starting, KillHolds, Opening, PnlOnDay, CanTrade;
    RunDaily(l, n, ss, ts, j);
    CloseTripsIff(l, ss[j], ts[j].act.pnl, ts[j].at);
    assert ss[j + 1] == Do(l, ss[j], ts[j].act, ts[j].at);
    RunLatched(l, n, ss, ts, j + 1, k);
  }
}
