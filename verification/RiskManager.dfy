/** The manager that the engines share, updating its counters in place. */
module RiskManagement {
  import opened Wrappers
  import opened RiskGate

  class RiskManager {
    const limits: Limits
    var dailyCount: nat
    var dailyPnl: real
    var lastDate: Option<int>
    var consecutiveLosses: nat
    var lastLossTime: Option<int>
    var peak: Option<real>
    var killSwitch: bool
    var killReason: Option<string>
    var recent: seq<int>
    var stateFile: Option<Counters>

    function Counts(): Counters
      reads this
    {
      Counters(dailyCount, dailyPnl, lastDate, consecutiveLosses, lastLossTime, peak, killSwitch, killReason)
    }

    function View(): Risk
      reads this
    {
      Risk(Counts(), recent, stateFile)
    }

    constructor (limits: Limits, stateFile: Option<Counters>)
      ensures this.limits == limits
      ensures View() == Restart(Risk(FRESH, [], stateFile))
    {
      this.limits, this.stateFile, recent := limits, stateFile, [];
      var c := if stateFile.Some? then stateFile.value else FRESH;
      dailyCount, dailyPnl, lastDate := c.dailyCount, c.dailyPnl, c.lastDate;
      consecutiveLosses, lastLossTime, peak := c.consecutiveLosses, c.lastLossTime, c.peak;
      killSwitch, killReason := c.killSwitch, c.killReason;
    }

    method SaveState()
      modifies this`stateFile
      ensures View() == Save(old(View()))
    {
      stateFile := Some(Counts());
    }

    method ResetDailyStatsIfNewDay(now: int)
      modifies this`dailyCount, this`dailyPnl, this`lastDate
      ensures View() == old(View()).(mem := NewDay(old(Counts()), now))
    {
      if lastDate != Some(Day(now)) {
        dailyCount, dailyPnl, lastDate := 0, 0.0, Some(Day(now));
      }
    }

    method HasReachedVelocityLimit(now: int) returns (hit: bool)
      modifies this`recent
      ensures limits.maxOrdersPerMinute <= 0 ==> !hit && recent == old(recent)
      ensures limits.maxOrdersPerMinute > 0 ==>
        recent == Prune(old(recent), now) && hit == (|recent| >= limits.maxOrdersPerMinute)
    {
      if limits.maxOrdersPerMinute <= 0 {
        return false;
      }
      var kept: seq<int> := [];
      for k := 0 to |recent|
        invariant kept == Prune(recent[..k], now)
        invariant recent == old(recent)
      {
        assert recent[..k + 1][..k] == recent[..k];
        if now - recent[k] < MINUTE_MS {
          kept := kept + [recent[k]];
        }
      }
      assert recent[..|recent|] == recent;
      recent := kept;
      hit := |recent| >= limits.maxOrdersPerMinute;
    }

    method CanTrade(now: int, q: Query) returns (v: Verdict)
      modifies this
      ensures Checked(v, View()) == RiskGate.CanTrade(limits, old(View()), now, q)
    {
      if limits.disabled {
        return Allowed;
      }
      ResetDailyStatsIfNewDay(now);
      if killSwitch { return KillSwitch; }
      if dailyCount >= limits.maxDaily { return DailyLimit; }
      var tooFast := HasReachedVelocityLimit(now);
      if tooFast { return Velocity; }
      if DailyLossHit(limits, Counts(), q.initialDaily) { return DailyDrawdown; }
      if consecutiveLosses >= limits.maxConsecutive { return ConsecutiveLosses; }
      if CoolingDown(limits, Counts(), now) { return Cooldown; }
      if DrawnDown(limits, Counts(), q.balance) { return MaxDrawdown; }
      if OverLeveraged(limits, q) { return PortfolioLeverage; }
      return Allowed;
    }

    method RecordOpen(now: int)
      modifies this
      ensures View() == RiskGate.RecordOpen(old(View()), now)
    {
      ResetDailyStatsIfNewDay(now);
      dailyCount := dailyCount + 1;
      recent := recent + [now];
      SaveState();
    }

    method TriggerKillSwitch(reason: string)
      modifies this
      ensures View() == TriggerKill(old(View()), reason)
    {
      killSwitch, killReason := true, Some(reason);
      SaveState();
    }

    method ClearKillSwitch()
      modifies this
      ensures View() == ClearKill(old(View()))
    {
      killSwitch, killReason := false, None;
      SaveState();
    }

    method RecordClose(now: int, pnl: real, balance: Option<real>)
      modifies this
      ensures View() == RiskGate.RecordClose(limits, old(View()), now, pnl, balance)
    {
      ResetDailyStatsIfNewDay(now);
      dailyPnl := dailyPnl + pnl;
      if pnl > 0.0 {
        consecutiveLosses := 0;
      } else {
        consecutiveLosses := consecutiveLosses + 1;
        lastLossTime := Some(now);
      }
      SaveState();
      if balance.Some? {
        if DailyLossHit(limits, Counts(), Some(balance.value - dailyPnl)) {
          TriggerKillSwitch("daily loss limit");
        }
      }
    }

    method UpdatePeakBalance(balance: real)
      modifies this
      ensures View() == UpdatePeak(old(View()), balance)
    {
      if balance > 0.0 && (peak.None? || balance > peak.value) {
        peak := Some(balance);
        SaveState();
      }
    }

    method ResetConsecutiveLosses()
      modifies this
      ensures View() == ResetLosses(old(View()))
    {
      consecutiveLosses := 0;
      SaveState();
    }
  }
}
