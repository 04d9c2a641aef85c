/** The shared gate judged by the history of calls: what its counters stand for, restarts
    included, and which rule refuses a trade. */
module RiskHistory {
  import opened Wrappers
  import opened RiskGate
  import opened RiskRuns

  // ----- what the counters stand for -----

  /** The highest positive balance reported. */
  function Highest(ts: seq<Timed>): Option<real> {
    if ts == [] then None
    else
      var h, act := Highest(ts[..|ts| - 1]), ts[|ts| - 1].act;
      if act.Peak? && act.balance > 0.0 && (h.None? || act.balance > h.value) then Some(act.balance) else h
  }

  /** Losses since the last win or the last pardon. */
  function Streak(ts: seq<Timed>): nat {
    if ts == [] then 0
    else
      var act := ts[|ts| - 1].act;
      if act.ForgiveLosses? || (act.Close? && act.pnl > 0.0) then 0
      else Streak(ts[..|ts| - 1]) + if act.Close? then 1 else 0
  }

  /** What the state file would restore is what memory holds. */
  predicate Persisted(s: Risk) {
    var c := if s.disk.Some? then s.disk.value else FRESH;
    && c.peak == s.mem.peak && c.consecutiveLosses == s.mem.consecutiveLosses
    && c.lastLossTime == s.mem.lastLossTime && c.killSwitch == s.mem.killSwitch
  }

  /** When the last close without a gain was. */
  function LastLoss(ts: seq<Timed>): Option<int> {
    if ts == [] then None
    else
      var last := ts[|ts| - 1];
      if last.act.Close? && last.act.pnl <= 0.0 then Some(last.at) else LastLoss(ts[..|ts| - 1])
  }

  /** Which calls move the counters, in memory and on disk alike. */
  lemma StepEffect(l: Limits, sys: System, act: Action, now: int)
    requires Persisted(sys.risk)
    ensures
      var c, s := sys.risk.mem, Do(l, sys, act, now).risk;
      && Persisted(s)
      && s.mem.peak == (if act.Peak? && act.balance > 0.0 && (c.peak.None? || act.balance > c.peak.value)
                        then Some(act.balance) else c.peak)
      && s.mem.consecutiveLosses == (if act.ForgiveLosses? || (act.Close? && act.pnl > 0.0) then 0
                                     else c.consecutiveLosses + if act.Close? then 1 else 0)
      && s.mem.lastLossTime == (if act.Close? && act.pnl <= 0.0 then Some(now) else c.lastLossTime)
      && (!act.Close? ==> s.mem.killSwitch == (act.Kill? || (c.killSwitch && !act.Clear?)))
  {
    hide Prune, LaterRules, TotalPnl, DailyLossHit, Day;
  }

  lemma HistoryGrows(before: seq<Timed>, t: Timed)
    ensures
      var h := Highest(before);
      Highest(before + [t]) ==
        if t.act.Peak? && t.act.balance > 0.0 && (h.None? || t.act.balance > h.value) then Some(t.act.balance) else h
    ensures
      Streak(before + [t]) ==
        if t.act.ForgiveLosses? || (t.act.Close? && t.act.pnl > 0.0) then 0
        else Streak(before) + if t.act.Close? then 1 else 0
    ensures
      LastLoss(before + [t]) == if t.act.Close? && t.act.pnl <= 0.0 then Some(t.at) else LastLoss(before)
  {
    assert (before + [t])[..|before|] == before;
  }

  /** Over every run, restarts included, the peak is the highest balance ever reported, the
      loss counter the streak since the last win or pardon, and the last loss the last one. */
  lemma {:induction false} RunRemembers(l: Limits, n: nat, ss: seq<System>, ts: seq<Timed>, k: nat)
    requires Run(l, n, ss, ts) && Starting(ss[0]) && k < |ss|
    ensures Persisted(ss[k].risk)
    ensures ss[k].risk.mem.peak == Highest(ts[..k]) && ss[k].risk.mem.consecutiveLosses == Streak(ts[..k])
    ensures ss[k].risk.mem.lastLossTime == LastLoss(ts[..k])
    decreases k
  {
    if k > 0 {
      hide Do, Enabled, Starting, Persisted, Highest, Streak, LastLoss;
      RunRemembers(l, n, ss, ts, k - 1);
      StepEffect(l, ss[k - 1], ts[k - 1].act, ts[k - 1].at);
      HistoryGrows(ts[..k - 1], ts[k - 1]);
      assert ts[..k] == ts[..k - 1] + [ts[k - 1]];
    }
  }

  /** It was reported, and nothing positive ever reported is higher. */
  lemma {:induction false} HighestIsHighest(ts: seq<Timed>)
    ensures Highest(ts).Some? ==>
              Highest(ts).value > 0.0 && exists j :: 0 <= j < |ts| && ts[j].act == Peak(Highest(ts).value)
    ensures forall j :: 0 <= j < |ts| && ts[j].act.Peak? && ts[j].act.balance > 0.0 ==>
              Highest(ts).Some? && ts[j].act.balance <= Highest(ts).value
    decreases |ts|
  {
    if ts != [] {
      HighestIsHighest(ts[..|ts| - 1]);
    }
  }

  lemma {:induction false} HighestRises(ts: seq<Timed>, j: nat)
    requires j <= |ts|
    ensures Highest(ts[..j]).Some? ==> Highest(ts).Some? && Highest(ts[..j]).value <= Highest(ts).value
    decreases |ts|
  {
    if j < |ts| {
      HighestRises(ts[..|ts| - 1], j);
      assert ts[..|ts| - 1][..j] == ts[..j];
    } else {
      assert ts[..j] == ts;
    }
  }

  /** The peak never falls, not even across a restart. */
  lemma PeakNeverFalls(l: Limits, n: nat, ss: seq<System>, ts: seq<Timed>, j: nat, k: nat)
    requires Run(l, n, ss, ts) && Starting(ss[0]) && j <= k < |ss|
    ensures
      var early, late := ss[j].risk.mem.peak, ss[k].risk.mem.peak;
      early.Some? ==> late.Some? && early.value <= late.value
  {
    hide Starting, Highest, Enabled, Do;
    RunRemembers(l, n, ss, ts, j);
    RunRemembers(l, n, ss, ts, k);
    HighestRises(ts[..k], j);
    assert ts[..k][..j] == ts[..j];
  }

  /** As many losses in a row as the limit shut the gate until a win or a pardon. */
  lemma LossStreakHalts(l: Limits, n: nat, ss: seq<System>, ts: seq<Timed>, k: nat)
    requires Run(l, n, ss, ts) && Starting(ss[0]) && k < |ts| && ts[k].act.Check? && !l.disabled
    requires Streak(ts[..k]) >= l.maxConsecutive
    ensures !CanTrade(l, ss[k].risk, ts[k].at, ts[k].act.q).verdict.Allowed?
  {
    hide Run, Starting, Streak, Prune, DailyLossHit, CoolingDown, DrawnDown, OverLeveraged;
    RunLength(l, n, ss, ts);
    RunRemembers(l, n, ss, ts, k);
  }

  // ----- the kill switch -----

  /** The call throws the switch: an explicit one, or a close that takes the day's loss to its
      share of the day's opening balance. */
  predicate Throws(l: Limits, ss: seq<System>, ts: seq<Timed>, j: nat)
    requires j < |ts| && |ss| == |ts| + 1
  {
    || ts[j].act.Kill?
    || (ts[j].act.Close?
        && var d := Day(ts[j].at);
           var opening := Opening(ss[j + 1], d);
           opening != 0.0 && PnlOnDay(ss[j + 1].closes, d) <= -opening * l.maxDailyDrawdownPct)
  }

  /** Thrown, and not cleared since. */
  predicate Thrown(l: Limits, ss: seq<System>, ts: seq<Timed>, k: nat)
    requires k <= |ts| && |ss| == |ts| + 1
  {
    k > 0 && (Throws(l, ss, ts, k - 1) || (Thrown(l, ss, ts, k - 1) && !ts[k - 1].act.Clear?))
  }

  lemma CloseWithoutOpening(l: Limits, sys: System, pnl: real, now: int)
    requires BooksTally(sys) && sys.now <= now
    ensures
      var sys' := Do(l, sys, Close(pnl), now);
      Opening(sys', Day(now)) == 0.0 ==> sys'.risk.mem.killSwitch == sys.risk.mem.killSwitch
  {
    hide Tallies, OnDay, Day;
    var mem, cs := sys.risk.mem, sys.closes + [RiskRuns.Outcome(now, pnl)];
    TallyNow(sys, now);
    NewDayTallies(mem, sys.opens, sys.closes, now);
    var c := NewDay(mem, now);
    CloseTallies(c, sys.opens, sys.closes, now, pnl);
    DayPnlIs(CloseCounters(c, now, pnl), sys.opens, cs, Day(now));
    PnlSplits(cs, Day(now));
  }

  /** Over every run, restarts included, the switch is on exactly when something threw it and
      nothing cleared it since. */
  lemma {:induction false} RunKilledIff(l: Limits, n: nat, ss: seq<System>, ts: seq<Timed>, k: nat)
    requires Run(l, n, ss, ts) && Starting(ss[0]) && k < |ss|
    ensures BooksTally(ss[k])
    ensures ss[k].risk.mem.killSwitch <==> Thrown(l, ss, ts, k)
    decreases k
  {
    hide Do, Enabled, BooksTally, Persisted, Opening, PnlOnDay;
    if k == 0 {
      StartTallies(ss[0]);
    } else {
      RunKilledIff(l, n, ss, ts, k - 1);
      RunRemembers(l, n, ss, ts, k - 1);
      var sys, t := ss[k - 1], ts[k - 1];
      StepTallies(l, n, sys, t.act, t.at);
      StepEffect(l, sys, t.act, t.at);
      if t.act.Close? {
        CloseTripsIff(l, sys, t.act.pnl, t.at);
        CloseWithoutOpening(l, sys, t.act.pnl, t.at);
      }
    }
  }

  lemma StartTallies(sys: System)
    requires Starting(sys)
    ensures BooksTally(sys) && !sys.risk.mem.killSwitch
  {
    hide Day;
  }

  // ----- the verdict -----

  /** The list of recent opens stands for the history at every step. */
  lemma StepKeepsList(l: Limits, sys: System, act: Action, now: int)
    requires Remembers(sys) && sys.now <= now && LosesNothing(sys, Timed(act, now))
    ensures Remembers(Do(l, sys, act, now))
  {
    hide NewDay, LaterRules, CloseCounters, TotalPnl, DailyLossHit, Since, Prune;
    var sys' := Do(l, sys, act, now);
    if act.Reboot? {
      RestartForgetsMinute(l, sys, now);
    } else {
      assert sys'.risk.recent == sys.risk.recent || act.Open? || sys'.risk.recent == Prune(sys.risk.recent, now);
      forall t: int | t >= now - MINUTE_MS
        ensures Since(sys'.risk.recent, t) == Since(sys'.opens, t)
      {
        assert Since(sys.risk.recent, t) == Since(sys.opens, t);
        PruneKeepsWindow(sys.risk.recent, now, t);
        OpenKeepsMemory(sys.risk.recent, sys.opens, now, t);
      }
    }
  }

  lemma {:induction false} RunKeepsList(l: Limits, n: nat, ss: seq<System>, ts: seq<Timed>, k: nat)
    requires Run(l, n, ss, ts) && JustStarted(ss[0]) && k < |ss|
    requires forall j :: 0 <= j < k ==> LosesNothing(ss[j], ts[j])
    ensures Remembers(ss[k])
    decreases k
  {
    if k > 0 {
      hide Do, Enabled, Remembers, LosesNothing, JustStarted;
      RunKeepsList(l, n, ss, ts, k - 1);
      StepKeepsList(l, ss[k - 1], ts[k - 1].act, ts[k - 1].at);
    }
  }

  /** What each rule of the gate objects to, by the history of calls alone. */
  predicate Objects(l: Limits, ss: seq<System>, ts: seq<Timed>, k: nat, q: Query, v: Verdict)
    requires k < |ts| && |ss| == |ts| + 1
  {
    var now, sys := ts[k].at, ss[k];
    match v
    case Allowed => false
    case KillSwitch => Thrown(l, ss, ts, k)
    case DailyLimit => OnDay(sys.opens, Day(now)) >= l.maxDaily
    case Velocity => l.maxOrdersPerMinute > 0 && Since(sys.opens, now - 60000) >= l.maxOrdersPerMinute
    case DailyDrawdown =>
      q.initialDaily.Some? && q.initialDaily.value != 0.0
      && PnlOnDay(sys.closes, Day(now)) <= -q.initialDaily.value * l.maxDailyDrawdownPct
    case ConsecutiveLosses => Streak(ts[..k]) >= l.maxConsecutive
    case Cooldown =>
      LastLoss(ts[..k]).Some? && LastLoss(ts[..k]).value != 0 && now < LastLoss(ts[..k]).value + l.cooldownMs
    case MaxDrawdown =>
      q.balance.Some? && Highest(ts[..k]).Some?
      && Highest(ts[..k]).value - q.balance.value >= l.maxDrawdownPct * Highest(ts[..k]).value
    case PortfolioLeverage =>
      q.balance.Some? && q.balance.value > 0.0 && q.totalNotional > l.maxPortfolioLeverage * q.balance.value
  }

  /** The first rule that objects, in the gate's order. */
  function FirstObjection(l: Limits, ss: seq<System>, ts: seq<Timed>, k: nat, q: Query): Verdict
    requires k < |ts| && |ss| == |ts| + 1
  {
    if Objects(l, ss, ts, k, q, KillSwitch) then KillSwitch
    else if Objects(l, ss, ts, k, q, DailyLimit) then DailyLimit
    else if Objects(l, ss, ts, k, q, Velocity) then Velocity
    else if Objects(l, ss, ts, k, q, DailyDrawdown) then DailyDrawdown
    else if Objects(l, ss, ts, k, q, ConsecutiveLosses) then ConsecutiveLosses
    else if Objects(l, ss, ts, k, q, Cooldown) then Cooldown
    else if Objects(l, ss, ts, k, q, MaxDrawdown) then MaxDrawdown
    else if Objects(l, ss, ts, k, q, PortfolioLeverage) then PortfolioLeverage
    else Allowed
  }

  /** Over every run of several engines with restarts after an empty minute the gate's verdict
      is the first rule that objects by the history; it allows exactly when none does. */
  lemma RunVerdict(l: Limits, n: nat, ss: seq<System>, ts: seq<Timed>, k: nat)
    requires Run(l, n, ss, ts) && Starting(ss[0]) && k < |ts| && ts[k].act.Check? && !l.disabled
    requires forall j :: 0 <= j < k ==> LosesNothing(ss[j], ts[j])
    ensures CanTrade(l, ss[k].risk, ts[k].at, ts[k].act.q).verdict == FirstObjection(l, ss, ts, k, ts[k].act.q)
  {
    hide Do, Enabled, Starting, LosesNothing;
    RunLength(l, n, ss, ts);
    assert JustStarted(ss[0]) by { StartJust(ss[0]); }
    RunKeepsList(l, n, ss, ts, k);
    RunKilledIff(l, n, ss, ts, k);
    RunRemembers(l, n, ss, ts, k);
    HighestIsHighest(ts[..k]);
    VerdictByHistory(l, ss, ts, k);
  }

  lemma StartJust(sys: System)
    requires Starting(sys)
    ensures JustStarted(sys)
  {
  }

  /** The gate's rules, left to right. */
  lemma GateInOrder(l: Limits, s: Risk, now: int, q: Query)
    requires !l.disabled
    ensures
      var c := NewDay(s.mem, now);
      CanTrade(l, s, now, q).verdict ==
        if c.killSwitch then KillSwitch
        else if c.dailyCount >= l.maxDaily then DailyLimit
        else if l.maxOrdersPerMinute > 0 && |Prune(s.recent, now)| >= l.maxOrdersPerMinute then Velocity
        else if DailyLossHit(l, c, q.initialDaily) then DailyDrawdown
        else if c.consecutiveLosses >= l.maxConsecutive then ConsecutiveLosses
        else if CoolingDown(l, c, now) then Cooldown
        else if DrawnDown(l, c, q.balance) then MaxDrawdown
        else if OverLeveraged(l, q) then PortfolioLeverage
        else Allowed
  {
    hide Prune, NewDay, DailyLossHit, CoolingDown, DrawnDown, OverLeveraged;
  }

  /** What the gate reads of the day and the minute is the history's. */
  lemma ReadsHistory(l: Limits, sys: System, now: int)
    requires Remembers(sys) && BooksTally(sys) && sys.now <= now
    ensures
      var c := NewDay(sys.risk.mem, now);
      && c.dailyCount == OnDay(sys.opens, Day(now)) && c.dailyPnl == PnlOnDay(sys.closes, Day(now))
      && c.killSwitch == sys.risk.mem.killSwitch && c.consecutiveLosses == sys.risk.mem.consecutiveLosses
      && c.lastLossTime == sys.risk.mem.lastLossTime && c.peak == sys.risk.mem.peak
      && |Prune(sys.risk.recent, now)| == Since(sys.opens, now - MINUTE_MS)
  {
    hide Tallies, Prune, OnDay, PnlOnDay, Since, Day;
    TallyNow(sys, now);
    NewDayTallies(sys.risk.mem, sys.opens, sys.closes, now);
    DayCountsAre(NewDay(sys.risk.mem, now), sys.opens, sys.closes, Day(now));
    PruneIsWindow(sys.risk.recent, now);
    assert Since(sys.risk.recent, now - MINUTE_MS) == Since(sys.opens, now - MINUTE_MS);
  }

  /** The history is what the gate reads. */
  ghost predicate Read(l: Limits, ss: seq<System>, ts: seq<Timed>, k: nat)
    requires k < |ts| && |ss| == |ts| + 1
  {
    && Remembers(ss[k]) && BooksTally(ss[k]) && ss[k].now <= ts[k].at
    && (ss[k].risk.mem.killSwitch <==> Thrown(l, ss, ts, k))
    && ss[k].risk.mem.peak == Highest(ts[..k]) && ss[k].risk.mem.consecutiveLosses == Streak(ts[..k])
    && ss[k].risk.mem.lastLossTime == LastLoss(ts[..k])
    && (Highest(ts[..k]).Some? ==> Highest(ts[..k]).value > 0.0)
  }

  lemma CountsObject(l: Limits, ss: seq<System>, ts: seq<Timed>, k: nat, q: Query)
    requires k < |ts| && |ss| == |ts| + 1 && Read(l, ss, ts, k)
    ensures
      var s, c := ss[k].risk, NewDay(ss[k].risk.mem, ts[k].at);
      && Objects(l, ss, ts, k, q, KillSwitch) == c.killSwitch
      && Objects(l, ss, ts, k, q, DailyLimit) == (c.dailyCount >= l.maxDaily)
      && Objects(l, ss, ts, k, q, Velocity)
         == (l.maxOrdersPerMinute > 0 && |Prune(s.recent, ts[k].at)| >= l.maxOrdersPerMinute)
      && Objects(l, ss, ts, k, q, ConsecutiveLosses) == (c.consecutiveLosses >= l.maxConsecutive)
      && Objects(l, ss, ts, k, q, DailyDrawdown) == DailyLossHit(l, c, q.initialDaily)
  {
    ReadsHistory(l, ss[k], ts[k].at);
    hide Prune, OnDay, PnlOnDay, Since, Day, Thrown, Highest, Streak, LastLoss, NewDay, Remembers, BooksTally;
  }

  lemma PricesObject(l: Limits, ss: seq<System>, ts: seq<Timed>, k: nat, q: Query)
    requires k < |ts| && |ss| == |ts| + 1 && Read(l, ss, ts, k)
    ensures
      var c := NewDay(ss[k].risk.mem, ts[k].at);
      && Objects(l, ss, ts, k, q, Cooldown) == CoolingDown(l, c, ts[k].at)
      && Objects(l, ss, ts, k, q, MaxDrawdown) == DrawnDown(l, c, q.balance)
      && Objects(l, ss, ts, k, q, PortfolioLeverage) == OverLeveraged(l, q)
  {
    ReadsHistory(l, ss[k], ts[k].at);
    RulesWritten(l, NewDay(ss[k].risk.mem, ts[k].at), ts[k].at, q);
    hide Highest, Streak, LastLoss, NewDay, CoolingDown, DrawnDown, OverLeveraged, Remembers, BooksTally;
  }

  lemma VerdictByHistory(l: Limits, ss: seq<System>, ts: seq<Timed>, k: nat)
    requires k < |ts| && |ss| == |ts| + 1 && ts[k].act.Check? && !l.disabled && Read(l, ss, ts, k)
    ensures CanTrade(l, ss[k].risk, ts[k].at, ts[k].act.q).verdict == FirstObjection(l, ss, ts, k, ts[k].act.q)
  {
    hide Read, Objects, CanTrade, LaterRules, NewDay, Prune, DailyLossHit, CoolingDown, DrawnDown, OverLeveraged;
    GateInOrder(l, ss[k].risk, ts[k].at, ts[k].act.q);
    CountsObject(l, ss, ts, k, ts[k].act.q);
    PricesObject(l, ss, ts, k, ts[k].act.q);
  }
}
