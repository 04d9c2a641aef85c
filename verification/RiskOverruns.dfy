/** Runs that attain the bounds of RiskRuns: N engines that share one manager can overrun a
    limit by N - 1. */
module RiskOverruns {
  import opened Wrappers
  import opened RiskGate
  import opened RiskRuns

  /** At `now`: so many opens today, `latest` of them at this instant and none later, no close. */
  predicate Stage(sys: System, done: nat, latest: nat, pending: set<nat>, now: int) {
    var c, h, recent := sys.risk.mem, sys.opens, sys.risk.recent;
    && sys.now <= now && sys.pending == pending
    && OnDay(h, Day(now)) == done == c.dailyCount && (done == 0 || c.lastDate == Some(Day(now)))
    && InMinute(h, now) == latest && Since(h, now) == 0
    && Since(recent, now - MINUTE_MS) == latest && Since(recent, now) == 0
    && !c.killSwitch && c.consecutiveLosses == 0 && c.lastLossTime.None? && c.peak.None?
  }

  const ANY := Query(None, None, 0.0)

  /** Limits that let one more entry through. */
  predicate Admits(l: Limits, done: nat, latest: nat) {
    && !l.disabled && l.maxConsecutive > 0 && done < l.maxDaily
    && (l.maxOrdersPerMinute <= 0 || latest < l.maxOrdersPerMinute)
  }

  /** A minute later, on the same day, none of them is recent. */
  lemma WaitStage(sys: System, done: nat, latest: nat, pending: set<nat>, now: int)
    requires Stage(sys, done, latest, pending, now) && Day(now + MINUTE_MS) == Day(now)
    ensures Stage(sys, done, 0, pending, now + MINUTE_MS)
  {
    hide Day, Since, InMinute, OnDay;
    SinceAntitone(sys.opens, now, now + MINUTE_MS);
    SinceAntitone(sys.opens, now, now + MINUTE_MS - 1);
    SinceAntitone(sys.risk.recent, now, now + MINUTE_MS);
    InMinuteSince(sys.opens, now + MINUTE_MS);
  }

  lemma CheckStage(l: Limits, n: nat, sys: System, done: nat, latest: nat, pending: set<nat>, e: nat, now: int)
    requires Stage(sys, done, latest, pending, now) && Admits(l, done, latest) && e < n && e !in pending
    ensures Enabled(n, sys, Check(e, ANY))
    ensures Stage(Do(l, sys, Check(e, ANY), now), done, latest, pending + {e}, now)
  {
    hide Day, Prune, Since, InMinute, OnDay;
    PruneIsWindow(sys.risk.recent, now);
    PruneKeepsWindow(sys.risk.recent, now, now);
    PruneKeepsWindow(sys.risk.recent, now, now - MINUTE_MS);
  }

  lemma StageNow(sys: System, done: nat, latest: nat, pending: set<nat>, now: int)
    requires Stage(sys, done, latest, pending, now)
    ensures sys.now <= now
  {
  }

  /** A run from nothing to a stage. */
  datatype Path = Path(ss: seq<System>, ts: seq<Timed>)

  ghost predicate Reaches(l: Limits, n: nat, p: Path, done: nat, latest: nat, pending: set<nat>, now: int) {
    Run(l, n, p.ss, p.ts) && Starting(p.ss[0]) && Stage(p.ss[|p.ts|], done, latest, pending, now)
  }

  lemma ReachCheck(l: Limits, n: nat, p: Path, done: nat, latest: nat, pending: set<nat>, e: nat, now: int)
    returns (p': Path)
    requires Reaches(l, n, p, done, latest, pending, now) && Admits(l, done, latest) && e < n && e !in pending
    ensures Reaches(l, n, p', done, latest, pending + {e}, now)
  {
    RunLength(l, n, p.ss, p.ts);
    hide Run, Starting, Stage, Do, Enabled;
    var last, t := p.ss[|p.ts|], Timed(Check(e, ANY), now);
    CheckStage(l, n, last, done, latest, pending, e, now);
    StageNow(last, done, latest, pending, now);
    p' := Path(p.ss + [Do(l, last, t.act, now)], p.ts + [t]);
  }

  lemma ReachOpen(l: Limits, n: nat, p: Path, done: nat, latest: nat, pending: set<nat>, e: nat, now: int)
    returns (p': Path)
    requires Reaches(l, n, p, done, latest, pending, now) && e in pending
    ensures Reaches(l, n, p', done + 1, latest + 1, pending - {e}, now)
  {
    RunLength(l, n, p.ss, p.ts);
    hide Run, Starting, Stage, Do, Enabled;
    var last, t := p.ss[|p.ts|], Timed(Open(e), now);
    StageNow(last, done, latest, pending, now);
    p' := Path(p.ss + [Do(l, last, t.act, now)], p.ts + [t]);
  }

  /** Limits under which one engine, opening `pace` a minute, opens `limit` in a day. */
  predicate Schedule(l: Limits, limit: nat, pace: nat, start: int) {
    && !l.disabled && l.maxConsecutive > 0 && 1 <= limit <= l.maxDaily
    && pace >= 1 && (l.maxOrdersPerMinute <= 0 || pace <= l.maxOrdersPerMinute)
    && limit <= 1440 * pace && start % DAY_MS == 0
  }

  /** The opens before the i-th minute and within it. */
  function Total(i: nat, pace: nat, latest: nat): nat {
    i * pace + latest
  }

  lemma TotalGrows(i: nat, pace: nat, latest: nat)
    ensures Total(i, pace, latest + 1) == Total(i, pace, latest) + 1
    ensures Total(i + 1, pace, 0) == Total(i, pace, pace)
    ensures Total(0, pace, latest) == latest
  {
  }

  lemma TotalAtLeast(i: nat, j: nat, pace: nat, latest: nat)
    requires j <= i
    ensures j * pace <= Total(i, pace, latest)
  {
    assert (i - j) * pace >= 0;
    assert i * pace == j * pace + (i - j) * pace;
  }

  /** One entry of engine 0. */
  lemma OpenOne(l: Limits, n: nat, p: Path, done: nat, latest: nat, now: int) returns (p': Path)
    requires n > 0 && Admits(l, done, latest) && Reaches(l, n, p, done, latest, {}, now)
    ensures Reaches(l, n, p', done + 1, latest + 1, {}, now)
  {
    hide Reaches, Admits;
    p' := ReachCheck(l, n, p, done, latest, {}, 0, now);
    p' := ReachOpen(l, n, p', done, latest, {} + {0}, 0, now);
    assert {} + {0} - {0} == {};
  }

  /** Engine 0 alone makes the first k entries, `pace` of them in each minute. */
  lemma {:induction false} OpenAlone(l: Limits, n: nat, limit: nat, pace: nat, start: int, k: nat)
    returns (p: Path, i: nat, latest: nat)
    requires Schedule(l, limit, pace, start) && n > 0 && k < limit
    ensures Reaches(l, n, p, k, latest, {}, start + i * MINUTE_MS)
    ensures latest < pace && Total(i, pace, latest) == k && Day(start + i * MINUTE_MS) == Day(start)
    decreases k
  {
    if k == 0 {
      p, i, latest := Path([System(Restart(Risk(FRESH, [], None)), {}, [], [], 0.0, start)], []), 0, 0;
    } else {
      hide Reaches, Day, Total, Admits;
      p, i, latest := OpenAlone(l, n, limit, pace, start, k - 1);
      var now := start + i * MINUTE_MS;
      p := OpenOne(l, n, p, k - 1, latest, now);
      TotalGrows(i, pace, latest);
      latest := latest + 1;
      if latest == pace {
        assert start + (i + 1) * MINUTE_MS == now + MINUTE_MS;
        ReachLater(l, n, p, k, latest, {}, now);
        i, latest := i + 1, 0;
      }
    }
  }

  lemma ReachLater(l: Limits, n: nat, p: Path, done: nat, latest: nat, pending: set<nat>, now: int)
    requires Reaches(l, n, p, done, latest, pending, now) && Day(now + MINUTE_MS) == Day(now)
    ensures Reaches(l, n, p, done, 0, pending, now + MINUTE_MS)
  {
    hide Starting, Stage, Do, Enabled, Day;
    WaitStage(p.ss[|p.ts|], done, latest, pending, now);
  }

  function Below(m: nat): (s: set<nat>)
    ensures forall e :: e in s ==> e < m
  {
    if m == 0 then {} else Below(m - 1) + {m - 1}
  }

  /** Then m engines ask at once. */
  lemma {:induction false} AskTogether(l: Limits, n: nat, p: Path, done: nat, latest: nat, m: nat, now: int)
    returns (p': Path)
    requires m <= n && Admits(l, done, latest) && Reaches(l, n, p, done, latest, {}, now)
    ensures Reaches(l, n, p', done, latest, Below(m), now)
    decreases m
  {
    hide Reaches;
    if m == 0 {
      p' := p;
    } else {
      p' := AskTogether(l, n, p, done, latest, m - 1, now);
      p' := ReachCheck(l, n, p', done, latest, Below(m - 1), m - 1, now);
    }
  }

  /** And m of the N open. */
  lemma {:induction false} OpenTogether(l: Limits, n: nat, p: Path, done: nat, latest: nat, m: nat, now: int)
    returns (p': Path)
    requires m <= n && Reaches(l, n, p, done, latest, Below(n), now)
    ensures Reaches(l, n, p', done + m, latest + m, Below(n - m), now)
    decreases m
  {
    hide Reaches;
    if m == 0 {
      p' := p;
    } else {
      p' := OpenTogether(l, n, p, done, latest, m - 1, now);
      p' := ReachOpen(l, n, p', done + m - 1, latest + m - 1, Below(n - m + 1), n - m, now);
      assert Below(n - m + 1) - {n - m} == Below(n - m);
    }
  }

  /** N - 1 is not slack.  For every number of engines, every daily limit that the minute
      limit leaves room for is overrun by N - 1 on one day, and every minute limit that the
      daily one leaves room for in one minute. */
  lemma OverrunReachable(l: Limits, n: nat, limit: nat, pace: nat, start: int) returns (p: Path)
    requires Schedule(l, limit, pace, start) && n > 0
    ensures Run(l, n, p.ss, p.ts) && Starting(p.ss[0])
    ensures OnDay(p.ss[|p.ts|].opens, Day(start)) == limit + n - 1
    ensures limit <= pace ==> InMinute(p.ss[|p.ts|].opens, start) == limit + n - 1
  {
    hide Run, Starting, InMinute, OnDay, Day;
    var i: nat, latest: nat;
    p, i, latest := OpenAlone(l, n, limit, pace, start, limit - 1);
    var now := start + i * MINUTE_MS;
    p := AskTogether(l, n, p, limit - 1, latest, n, now);
    p := OpenTogether(l, n, p, limit - 1, latest, n, now);
    if limit <= pace && i > 0 {
      TotalAtLeast(i, 1, pace, latest);
    }
  }
}
