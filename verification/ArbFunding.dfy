/** What funding a hedge is paid: size times mark times rate on every tick that was due. */
module ArbFunding {
  import opened Wrappers
  import opened ArbRecords
  import opened ArbProtocol
  import opened ArbSafety
  import opened ArbCarry

  /** The tick reaches the accrual of a hedge last paid at `stamp`, and finds it due. */
  predicate DueSince(c: Config, sym: string, w: World, act: Action, stamp: int) {
    && act.Signal? && c.enabled && !w.halt && sym in w.book.open && w.book.open[sym].state.Hedged?
    && act.e.funding.Some? && act.e.sizeMark.Some? && act.e.t0 - stamp >= c.intervalMs
  }

  /** A positive rate pays the short perp. */
  function Due(c: Config, sym: string, w: World, act: Action, stamp: int, qty: real): real {
    if DueSince(c, sym, w, act, stamp) then qty * act.e.sizeMark.value * act.e.funding.value else 0.0
  }

  // ----- one tick -----

  /** Unwinding neither accrues nor moves the time of the last payment. */
  lemma UnwindKeepsStamp(w: World, a: ArbRecord, reason: string, e: Replies)
    requires Held(w.book, a)
    ensures
      var open := Unwind(w, a, reason, e).book.open;
      a.symbol in open ==> open[a.symbol].lastFundingTs == a.lastFundingTs
                           && open[a.symbol].accruedFunding == a.accruedFunding
  {
    hide RowOf, Realized, SpotExit;
  }

  /** What a tick books for a filled hedge, whether it then keeps or leaves it: the payment is
      journalled, added to the record, and its time noted, or nothing is. */
  lemma TickPays(c: Config, sym: string, w: World, a: ArbRecord, e: Replies)
    requires Held(w.book, a) && a.symbol == sym && PastEntry(a.state)
    ensures
      var w', act := Tick(c, sym, w, e), Signal(e);
      var paid := DueSince(c, sym, w, act, a.lastFundingTs);
      && FundingSum(w'.book.journal, a.arbId)
         == FundingSum(w.book.journal, a.arbId) + Due(c, sym, w, act, a.lastFundingTs, a.perpQty)
      && (sym in w'.book.open ==>
            && w'.book.open[sym].accruedFunding
               == a.accruedFunding + Due(c, sym, w, act, a.lastFundingTs, a.perpQty)
            && w'.book.open[sym].lastFundingTs == if paid then e.t1 else a.lastFundingTs)
      && (paid ==> |w'.book.journal| > |w.book.journal|
                   && w'.book.journal[|w.book.journal|] == FundingAccrued(
                        a.arbId, e.funding.value, a.perpQty * e.sizeMark.value,
                        a.perpQty * e.sizeMark.value * e.funding.value))
  {
    hide RowOf, Unwind, EvaluateExit, PerpNotional, Payment, FundingSum;
    UnwindBooks(w, a, "halt", e);
    UnwindBooks(w, a, ResumeReason(a), e);
    if a.state.Hedged? && e.funding.Some? && (FundingDue(c, a, e) ==> e.sizeMark.Some?) {
      var a1, w1 := Booked(c, w, a, e);
      var v := EvaluateExit(c, a1, e.funding.value, e);
      if FundingDue(c, a, e) {
        PaymentWritten(a, e.sizeMark.value, e.funding.value, e.t1);
        FundingSumGrows(w.book.journal, w1.book.journal[|w.book.journal|], a.arbId);
      }
      if v.Leave? { UnwindBooks(w1, a1, v.reason, e); }
    }
  }

  lemma UnwindBooks(w: World, a: ArbRecord, reason: string, e: Replies)
    requires Held(w.book, a)
    ensures
      var w' := Unwind(w, a, reason, e);
      && FundingSum(w'.book.journal, a.arbId) == FundingSum(w.book.journal, a.arbId)
      && w.book.journal <= w'.book.journal
      && (a.symbol in w'.book.open ==> w'.book.open[a.symbol].lastFundingTs == a.lastFundingTs
                                       && w'.book.open[a.symbol].accruedFunding == a.accruedFunding)
  {
    UnwindFunding(w, a, reason, e);
    UnwindKeepsStamp(w, a, reason, e);
    hide Unwind, FundingSum;
  }

  // ----- a whole hedge -----

  /** When the hedge entered by tick j was last paid before tick m, by the replies. */
  function Stamp(c: Config, sym: string, ws: seq<World>, acts: seq<Action>, j: nat, m: nat): int
    requires m <= |acts| && m <= |ws| && j < |acts| && acts[j].Signal?
    decreases m
  {
    if m <= j + 1 then acts[j].e.t1
    else
      var stamp := Stamp(c, sym, ws, acts, j, m - 1);
      if DueSince(c, sym, ws[m - 1], acts[m - 1], stamp) then acts[m - 1].e.t1 else stamp
  }

  /** The sum of size times mark times rate over the due ticks between j and m. */
  function FundingOver(c: Config, sym: string, ws: seq<World>, acts: seq<Action>, j: nat, m: nat, qty: real): real
    requires m <= |acts| && m <= |ws| && j < |acts| && acts[j].Signal?
    decreases m
  {
    if m <= j + 1 then 0.0
    else
      FundingOver(c, sym, ws, acts, j, m - 1, qty)
      + Due(c, sym, ws[m - 1], acts[m - 1], Stamp(c, sym, ws, acts, j, m - 1), qty)
  }

  /** The hedge of the entry at tick j as tick m finds it. */
  predicate PaidSoFar(c: Config, sym: string, ws: seq<World>, acts: seq<Action>, j: nat, m: nat, qty: real)
    requires m <= |acts| && m < |ws| && j < |acts| && acts[j].Signal? && sym in ws[m].book.open
  {
    var a := ws[m].book.open[sym];
    && a.perpQty == qty && a.arbId == acts[j].e.freshId
    && a.lastFundingTs == Stamp(c, sym, ws, acts, j, m)
    && a.accruedFunding == FundingOver(c, sym, ws, acts, j, m, qty)
    && FundingSum(ws[m].book.journal, a.arbId) == FundingOver(c, sym, ws, acts, j, m, qty)
  }

  lemma PaidStart(c: Config, sym: string, ws: seq<World>, acts: seq<Action>, clock: seq<int>, j: nat)
    requires Run(c, sym, ws, acts, clock) && Sound(c.intervalMs, clock[0], ws[0].book)
    requires j < |acts| && acts[j].Signal? && sym !in ws[j].book.open
    requires sym in ws[j + 1].book.open && ws[j + 1].book.open[sym].state.Hedged?
    ensures PaidSoFar(c, sym, ws, acts, j, j + 1, ws[j + 1].book.open[sym].perpQty)
  {
    hide Sound, Step, Timely, FundingSum;
    EntrySized(c, sym, ws, acts, clock, j);
    RunKeepsBook(c, sym, ws, acts, clock, j + 1);
    SoundHolds(c.intervalMs, clock[j + 1], ws[j + 1].book, sym);
  }

  lemma PaidStep(c: Config, sym: string, ws: seq<World>, acts: seq<Action>, clock: seq<int>, j: nat, m: nat, qty: real)
    requires Run(c, sym, ws, acts, clock) && Sound(c.intervalMs, clock[0], ws[0].book)
    requires j < m < |acts| && acts[j].Signal? && sym in ws[m].book.open
    requires PastEntry(ws[m].book.open[sym].state) && PaidSoFar(c, sym, ws, acts, j, m, qty)
    ensures FundingSum(ws[m + 1].book.journal, acts[j].e.freshId) == FundingOver(c, sym, ws, acts, j, m + 1, qty)
    ensures sym in ws[m + 1].book.open ==> PaidSoFar(c, sym, ws, acts, j, m + 1, qty)
  {
    hide Sound, Timely, Tick, FundingSum, LoadedFrom;
    var a := ws[m].book.open[sym];
    RunKeepsBook(c, sym, ws, acts, clock, m);
    StepKeepsBook(c, sym, ws[m], acts[m], ws[m + 1], clock[m], clock[m + 1]);
    SoundHolds(c.intervalMs, clock[m], ws[m].book, sym);
    if acts[m].Signal? {
      TickPays(c, sym, ws[m], a, acts[m].e);
      if sym in ws[m + 1].book.open { TickKeepsTrade(c, sym, ws[m], a, acts[m].e); }
    }
  }

  lemma {:induction false} PaidAll(c: Config, sym: string, ws: seq<World>, acts: seq<Action>, clock: seq<int>,
                                   j: nat, m: nat)
    requires Run(c, sym, ws, acts, clock) && Sound(c.intervalMs, clock[0], ws[0].book)
    requires j < m < |acts| && acts[j].Signal? && sym !in ws[j].book.open
    requires (forall i :: j < i <= m ==> sym in ws[i].book.open) && ws[j + 1].book.open[sym].state.Hedged?
    ensures PaidSoFar(c, sym, ws, acts, j, m, ws[j + 1].book.open[sym].perpQty)
    decreases m
  {
    hide Sound, Step, Timely, PaidSoFar;
    if m == j + 1 {
      PaidStart(c, sym, ws, acts, clock, j);
    } else {
      PaidAll(c, sym, ws, acts, clock, j, m - 1);
      TradeKept(c, sym, ws, acts, clock, j, m - 1);
      PaidStep(c, sym, ws, acts, clock, j, m - 1, ws[j + 1].book.open[sym].perpQty);
    }
  }

  /** What a closed hedge recorded, from the replies alone: size times mark times rate over the
      due ticks, and size times the basis of its entry fills less the basis read at its exit. */
  predicate EarnedWritten(c: Config, b: BookView, e: Replies, x: Replies, funding: real) {
    && e.sizeMark.Some? && e.perpSell.Some? && e.spotBuy.Some? && x.exitMark.Some? && x.spotSell.Some?
    && e.freshId in b.table && b.table[e.freshId].state.Closed?
    && var r := FromDict(b.table[e.freshId].snapshot);
       var exitSpot := if x.spotSell.value.price == 0.0 then x.exitMark.value else x.spotSell.value.price;
       r.Some? && r.value.realizedPnl ==
         funding + SizeLegs(c, e.sizeMark.value)
                   * ((e.perpSell.value.price - e.spotBuy.value.price) - (x.exitMark.value - exitSpot))
  }

  lemma HedgeEarnsFunding(c: Config, sym: string, ws: seq<World>, acts: seq<Action>, clock: seq<int>, j: nat, k: nat)
    requires Run(c, sym, ws, acts, clock) && Sound(c.intervalMs, clock[0], ws[0].book)
    requires j < k < |acts| && acts[j].Signal? && acts[k].Signal?
    requires sym !in ws[j].book.open && (forall m :: j < m <= k ==> sym in ws[m].book.open)
    requires ws[j + 1].book.open[sym].state.Hedged? && sym !in ws[k + 1].book.open
    ensures acts[j].e.sizeMark.Some?
    ensures EarnedWritten(c, ws[k + 1].book, acts[j].e, acts[k].e,
              FundingOver(c, sym, ws, acts, j, k + 1, SizeLegs(c, acts[j].e.sizeMark.value)))
  {
    hide Sound, Step, Timely, EarnedCarry, EarnedWritten, SizeLegs, PaidSoFar, FundingOver, FundingSum, Stamp;
    HedgeEarnsCarry(c, sym, ws, acts, clock, j, k);
    EntrySized(c, sym, ws, acts, clock, j);
    PaidAll(c, sym, ws, acts, clock, j, k);
    TradeKept(c, sym, ws, acts, clock, j, k);
    PaidStep(c, sym, ws, acts, clock, j, k, ws[j + 1].book.open[sym].perpQty);
    EarnedFrom(c, ws[k + 1].book, acts[j].e, acts[k].e);
  }

  lemma EarnedFrom(c: Config, b: BookView, e: Replies, x: Replies)
    requires EarnedCarry(c, b, e, x)
    ensures EarnedWritten(c, b, e, x, FundingSum(b.journal, e.freshId))
  {
    hide FundingSum, FromDict, SizeLegs;
  }
}
