/** Why a record was closed: what its row says, tick by tick and over whole runs. */
module ArbReasons {
  import opened Wrappers
  import opened ArbRecords
  import opened ArbProtocol
  import opened ArbSafety
  import opened ArbCarry

  /** The record has not been told that it is closed. */
  predicate Untold(a: ArbRecord) {
    a.closeReason.None? && a.closeTime.None? && a.realizedPnl == 0.0
  }

  predicate AllUntold(b: BookView) {
    forall s :: s in b.open ==> Untold(b.open[s])
  }

  /** Why a tick takes a record off the book, from the state it found it in. */
  function Why(c: Config, halt: bool, a: ArbRecord, e: Replies): string {
    match a.state
    case Hedged =>
      if halt then "halt"
      else if e.funding.Some? && e.funding.value <= c.exitFloor then "funding_flip"
      else if e.funding.Some? && e.funding.value < c.minFundingToHold then "funding_decay"
      else "basis_drift"
    case PerpOnly => "entry_rolled_back"
    case PlacingPerp => "abandoned_placing"
    case _ => "resume_unwind"
  }

  /** The row reads back closed for that reason, at the time of the tick. */
  predicate ToldWhy(b: BookView, id: string, why: string, at: int) {
    && id in b.table && b.table[id].state.Closed?
    && var r := FromDict(b.table[id].snapshot);
       r.Some? && r.value.closeReason == Some(why) && r.value.closeTime == Some(at)
  }

  // ----- one tick -----

  lemma UnwindTells(w: World, a: ArbRecord, reason: string, e: Replies)
    requires Held(w.book, a)
    ensures
      var b := Unwind(w, a, reason, e).book;
      && (a.symbol !in b.open ==> ToldWhy(b, a.arbId, reason, e.t2))
      && (a.symbol in b.open && Untold(a) ==> Untold(b.open[a.symbol]))
  {
    hide ToDict, FromDict, Realized, SpotExit;
    if e.exitMark.Some? && e.spotSell.Some? {
      var spotExit := SpotExit(e.spotSell.value, e.exitMark.value);
      DictRoundTrip(Settle(a.(state := UnwindingSpot), reason, Realized(a, e.exitMark.value, spotExit), e.t2));
      DictRoundTrip(Settle(a, reason, Realized(a, e.exitMark.value, spotExit), e.t2));
      SameRealized(a, UnwindingSpot, e.exitMark.value, spotExit);
    }
  }

  lemma SameRealized(a: ArbRecord, state: ArbState, perpExit: real, spotExit: real)
    ensures Realized(a.(state := state), perpExit, spotExit) == Realized(a, perpExit, spotExit)
  {
  }

  lemma CompleteSpotTells(w: World, a: ArbRecord, e: Replies)
    requires Held(w.book, a) && Untold(a)
    ensures
      var b := CompleteSpot(w, a, e).book;
      if a.symbol in b.open then Untold(b.open[a.symbol]) else ToldWhy(b, a.arbId, "entry_rolled_back", e.t2)
  {
    hide ToDict, FromDict;
    DictRoundTrip(Settle(a.(state := UnwindingPerp), "entry_rolled_back", 0.0, e.t2));
  }

  lemma ExitTells(c: Config, w: World, a: ArbRecord, e: Replies)
    requires Held(w.book, a) && Untold(a) && a.state.Hedged? && e.funding.Some?
    ensures
      var b := ExitIfDue(c, w, a, e).book;
      if a.symbol in b.open then Untold(b.open[a.symbol])
      else ToldWhy(b, a.arbId, Why(c, false, a, e), e.t2)
  {
    hide Unwind, Basis, ToldWhy;
    var v := EvaluateExit(c, a, e.funding.value, e);
    if v.Leave? { UnwindTells(w, a, v.reason, e); }
  }

  lemma ManageTells(c: Config, w: World, a: ArbRecord, e: Replies)
    requires Held(w.book, a) && Untold(a) && a.state.Hedged?
    ensures
      var b := Manage(c, w, a, e).book;
      if a.symbol in b.open then Untold(b.open[a.symbol])
      else ToldWhy(b, a.arbId, Why(c, false, a, e), e.t2)
  {
    hide ExitIfDue, ToldWhy, RowOf, PerpNotional, Payment;
    if e.funding.Some? && (FundingDue(c, a, e) ==> e.sizeMark.Some?) {
      var a1, w1 := a, w;
      if FundingDue(c, a, e) {
        var fr, notional := e.funding.value, PerpNotional(a, e.sizeMark.value);
        a1 := Accrue(a, Payment(notional, fr), e.t1);
        w1 := w.(book := Put(w.book, a1, FundingAccrued(a.arbId, fr, notional, Payment(notional, fr))));
      }
      ExitTells(c, w1, a1, e);
    }
  }

  /** A tick leaves its record untold or off the book, closed for exactly one reason: what the
      state it was in and the readings of the tick make it. */
  lemma TickTells(c: Config, sym: string, w: World, a: ArbRecord, e: Replies)
    requires Held(w.book, a) && a.symbol == sym && Untold(a) && !a.state.Closed?
    ensures
      var b := Tick(c, sym, w, e).book;
      if sym in b.open then Untold(b.open[sym]) else ToldWhy(b, a.arbId, Why(c, w.halt, a, e), e.t2)
  {
    hide Unwind, Manage, CompleteSpot, ToldWhy;
    UnwindTells(w, a, "halt", e);
    UnwindTells(w, a, "resume_unwind", e);
    CompleteSpotTells(w, a, e);
    if a.state.Hedged? { ManageTells(c, w, a, e); }
    if a.state.PlacingPerp? { AbandonTells(w, a, e); }
  }

  /** A record that did carry a reason would keep it when a later tick resumes its unwinding; an
      empty one counts as none. */
  lemma ResumeTells(c: Config, sym: string, w: World, a: ArbRecord, e: Replies)
    requires Held(w.book, a) && a.symbol == sym && (a.state.UnwindingPerp? || a.state.UnwindingSpot?)
    requires sym !in Tick(c, sym, w, e).book.open
    ensures
      var why := if a.closeReason.Some? && a.closeReason.value != "" then a.closeReason.value else "resume_unwind";
      ToldWhy(Tick(c, sym, w, e).book, a.arbId, why, e.t2)
  {
    hide Unwind, ToldWhy;
    UnwindTells(w, a, ResumeReason(a), e);
  }

  lemma AbandonTells(w: World, a: ArbRecord, e: Replies)
    requires Held(w.book, a)
    ensures
      var b := Put(w.book, Settle(a, "abandoned_placing", 0.0, e.t2), Lifecycle(a.arbId, "ARB_CLOSED"));
      ToldWhy(b, a.arbId, "abandoned_placing", e.t2) && a.symbol !in b.open
  {
    hide ToDict, FromDict;
    DictRoundTrip(Settle(a, "abandoned_placing", 0.0, e.t2));
  }

  lemma TickUntold(c: Config, sym: string, w: World, e: Replies)
    requires Faithful(w.book) && AllUntold(w.book)
    ensures AllUntold(Tick(c, sym, w, e).book)
  {
    OtherSymbolsUntouched(c, sym, w, e);
    var open := Tick(c, sym, w, e).book.open;
    if sym in w.book.open {
      TickTells(c, sym, w, w.book.open[sym], e);
    }
    hide Tick;
    forall s | s in open
      ensures Untold(open[s])
    {
      if s != sym { assert s in open - {sym} && (open - {sym})[s] == (w.book.open - {sym})[s]; }
    }
  }

  // ----- whole runs -----

  /** No record on the book ever carries a close reason, across failures, HALT and restarts. */
  lemma {:induction false} RunUntold(c: Config, sym: string, ws: seq<World>, acts: seq<Action>,
                                     clock: seq<int>, k: nat)
    requires Run(c, sym, ws, acts, clock) && k < |ws|
    requires Sound(c.intervalMs, clock[0], ws[0].book) && AllUntold(ws[0].book)
    ensures AllUntold(ws[k].book)
    decreases k
  {
    hide Timely, AllUntold, Tick, LoadedFrom;
    if k > 0 {
      RunUntold(c, sym, ws, acts, clock, k - 1);
      RunKeepsBook(c, sym, ws, acts, clock, k - 1);
      StepKeepsBook(c, sym, ws[k - 1], acts[k - 1], ws[k], clock[k - 1], clock[k]);
      if acts[k - 1].Signal? { TickUntold(c, sym, ws[k - 1], acts[k - 1].e); }
    }
  }

  /** So over every run a record that leaves the book is closed for the reason that its state
      and the readings of that tick make, and whatever began an unwinding that a later tick
      finished, its row says "resume_unwind". */
  lemma RunTellsWhy(c: Config, sym: string, ws: seq<World>, acts: seq<Action>, clock: seq<int>, k: nat)
    requires Run(c, sym, ws, acts, clock) && k < |acts| && acts[k].Signal?
    requires Sound(c.intervalMs, clock[0], ws[0].book) && AllUntold(ws[0].book)
    requires sym in ws[k].book.open && sym !in ws[k + 1].book.open
    ensures
      var a := ws[k].book.open[sym];
      && ToldWhy(ws[k + 1].book, a.arbId, Why(c, ws[k].halt, a, acts[k].e), acts[k].e.t2)
      && (a.state.UnwindingPerp? || a.state.UnwindingSpot? ==>
            ToldWhy(ws[k + 1].book, a.arbId, "resume_unwind", acts[k].e.t2))
  {
    hide Timely, Tick, ToldWhy;
    RunUntold(c, sym, ws, acts, clock, k);
    RunKeepsBook(c, sym, ws, acts, clock, k);
    TickTells(c, sym, ws[k], ws[k].book.open[sym], acts[k].e);
  }
}
