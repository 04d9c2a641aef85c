/** The risk gate as functions of its counters: what each call decides and leaves behind. */
module RiskGate {
  import opened Wrappers

  const MINUTE_MS := 60000
  const DAY_MS := 86400000

  /** The UTC date of a clock reading in milliseconds. */
  function Day(now: int): int {
    now / DAY_MS
  }

  datatype Limits = Limits(
    disabled: bool, maxDaily: int, maxConsecutive: int, maxOrdersPerMinute: int, cooldownMs: int,
    maxDrawdownPct: real, maxDailyDrawdownPct: real, maxPortfolioLeverage: real)

  /** The counters that the state file holds. */
  datatype Counters = Counters(
    dailyCount: nat, dailyPnl: real, lastDate: Option<int>, consecutiveLosses: nat,
    lastLossTime: Option<int>, peak: Option<real>, killSwitch: bool, killReason: Option<string>)

  /** A manager: its counters, the recent opens it keeps only in memory, its state file. */
  datatype Risk = Risk(mem: Counters, recent: seq<int>, disk: Option<Counters>)

  const FRESH := Counters(0, 0.0, None, 0, None, None, false, None)

  datatype Query = Query(balance: Option<real>, initialDaily: Option<real>, totalNotional: real)

  datatype Verdict =
    | Allowed | KillSwitch | DailyLimit | Velocity | DailyDrawdown | ConsecutiveLosses
    | Cooldown | MaxDrawdown | PortfolioLeverage

  function NewDay(c: Counters, now: int): Counters {
    if c.lastDate == Some(Day(now)) then c
    else c.(dailyCount := 0, dailyPnl := 0.0, lastDate := Some(Day(now)))
  }

  function Save(s: Risk): Risk {
    s.(disk := Some(s.mem))
  }

  /** The opens of the last minute. */
  function Prune(recent: seq<int>, now: int): seq<int> {
    if recent == [] then []
    else
      var r := Prune(recent[..|recent| - 1], now);
      if now - recent[|recent| - 1] < MINUTE_MS then r + [recent[|recent| - 1]] else r
  }

  predicate DailyLossHit(l: Limits, c: Counters, initial: Option<real>) {
    initial.Some? && initial.value != 0.0 && c.dailyPnl <= -initial.value * l.maxDailyDrawdownPct
  }

  predicate CoolingDown(l: Limits, c: Counters, now: int) {
    c.lastLossTime.Some? && c.lastLossTime.value != 0 && now - c.lastLossTime.value < l.cooldownMs
  }

  predicate DrawnDown(l: Limits, c: Counters, balance: Option<real>) {
    && balance.Some? && c.peak.Some? && c.peak.value > 0.0
    && (c.peak.value - balance.value) / c.peak.value >= l.maxDrawdownPct
  }

  predicate OverLeveraged(l: Limits, q: Query) {
    q.balance.Some? && q.balance.value > 0.0 && q.totalNotional / q.balance.value > l.maxPortfolioLeverage
  }

  /** The gate's rules after the velocity rule, left to right. */
  function LaterRules(l: Limits, c: Counters, now: int, q: Query): Verdict {
    if DailyLossHit(l, c, q.initialDaily) then DailyDrawdown
    else if c.consecutiveLosses >= l.maxConsecutive then ConsecutiveLosses
    else if CoolingDown(l, c, now) then Cooldown
    else if DrawnDown(l, c, q.balance) then MaxDrawdown
    else if OverLeveraged(l, q) then PortfolioLeverage
    else Allowed
  }

  datatype Checked = Checked(verdict: Verdict, after: Risk)

  /** can_trade: the first failing rule decides; only the velocity rule prunes. */
  function CanTrade(l: Limits, s: Risk, now: int, q: Query): Checked {
    if l.disabled then Checked(Allowed, s)
    else
      var c := NewDay(s.mem, now);
      var s' := s.(mem := c);
      if c.killSwitch then Checked(KillSwitch, s')
      else if c.dailyCount >= l.maxDaily then Checked(DailyLimit, s')
      else if l.maxOrdersPerMinute <= 0 then Checked(LaterRules(l, c, now, q), s')
      else
        var recent := Prune(s.recent, now);
        Checked(if |recent| >= l.maxOrdersPerMinute then Velocity else LaterRules(l, c, now, q),
                s'.(recent := recent))
  }

  function RecordOpen(s: Risk, now: int): Risk {
    var c := NewDay(s.mem, now);
    Save(s.(mem := c.(dailyCount := c.dailyCount + 1), recent := s.recent + [now]))
  }

  function TriggerKill(s: Risk, reason: string): Risk {
    Save(s.(mem := s.mem.(killSwitch := true, killReason := Some(reason))))
  }

  function ClearKill(s: Risk): Risk {
    Save(s.(mem := s.mem.(killSwitch := false, killReason := None)))
  }

  function CloseCounters(c: Counters, now: int, pnl: real): Counters {
    var c' := c.(dailyPnl := c.dailyPnl + pnl);
    if pnl > 0.0 then c'.(consecutiveLosses := 0)
    else c'.(consecutiveLosses := c.consecutiveLosses + 1, lastLossTime := Some(now))
  }

  /** record_close: count the outcome, then trip the switch if the day's loss, measured
      against the balance the day must have opened with, has reached its limit. */
  function RecordClose(l: Limits, s: Risk, now: int, pnl: real, balance: Option<real>): Risk {
    var c := CloseCounters(NewDay(s.mem, now), now, pnl);
    var s' := Save(s.(mem := c));
    if balance.Some? && DailyLossHit(l, c, Some(balance.value - c.dailyPnl))
    then TriggerKill(s', "daily loss limit") else s'
  }

  function UpdatePeak(s: Risk, balance: real): Risk {
    if balance > 0.0 && (s.mem.peak.None? || balance > s.mem.peak.value)
    then Save(s.(mem := s.mem.(peak := Some(balance)))) else s
  }

  function ResetLosses(s: Risk): Risk {
    Save(s.(mem := s.mem.(consecutiveLosses := 0)))
  }

  /** A new process: the counters come back from the state file, the recent opens do not. */
  function Restart(s: Risk): Risk {
    Risk(if s.disk.Some? then s.disk.value else FRESH, [], s.disk)
  }
}
