/** What a hedge earns from the fills of its entry to the fill of its exit, over whole runs. */
module ArbCarry {
  import opened Wrappers
  import opened ArbRecords
  import opened ArbProtocol
  import opened ArbSafety

  /** Both legs have been filled, and at most the perp has been given back. */
  predicate PastEntry(st: ArbState) {
    st.Hedged? || st.UnwindingPerp? || st.UnwindingSpot?
  }

  predicate SameTrade(a: ArbRecord, a': ArbRecord) {
    && a'.arbId == a.arbId && a'.symbol == a.symbol && a'.perpQty == a.perpQty && a'.spotQty == a.spotQty
    && a'.perpEntryPrice == a.perpEntryPrice && a'.spotEntryPrice == a.spotEntryPrice && a'.entryFees == a.entryFees
  }

  // ----- the record a hedge starts with -----

  /** The record a tick opens: equal legs, the two fills, and no fees, which no code sets. */
  predicate OpenedBy(c: Config, a: ArbRecord, e: Replies) {
    && e.sizeMark.Some? && e.perpSell.Some? && e.spotBuy.Some?
    && a.arbId == e.freshId && a.perpQty == a.spotQty == SizeLegs(c, e.sizeMark.value)
    && a.perpEntryPrice == e.perpSell.value.price && a.spotEntryPrice == e.spotBuy.value.price
    && a.entryFees == 0.0 && a.perpQty > 0.0 && a.accruedFunding == 0.0 && a.lastFundingTs == e.t1
  }

  lemma EntryOpens(c: Config, sym: string, w: World, e: Replies)
    requires sym !in w.book.open && sym in Tick(c, sym, w, e).book.open
    requires Tick(c, sym, w, e).book.open[sym].state.Hedged?
    ensures OpenedBy(c, Tick(c, sym, w, e).book.open[sym], e)
  {
    hide RowOf, SizeLegs, Basis, EntryCondition;
  }

  // ----- what ticks leave alone -----

  lemma UnwindKeepsTrade(w: World, a: ArbRecord, reason: string, e: Replies)
    requires Held(w.book, a) && PastEntry(a.state) && a.symbol in Unwind(w, a, reason, e).book.open
    ensures
      var a' := Unwind(w, a, reason, e).book.open[a.symbol];
      SameTrade(a, a') && PastEntry(a'.state)
  {
    hide RowOf, Realized, SpotExit;
  }

  /** A tick that does not close a filled hedge changes its state and its funding only. */
  lemma TickKeepsTrade(c: Config, sym: string, w: World, a: ArbRecord, e: Replies)
    requires Held(w.book, a) && a.symbol == sym && PastEntry(a.state) && sym in Tick(c, sym, w, e).book.open
    ensures
      var a' := Tick(c, sym, w, e).book.open[sym];
      SameTrade(a, a') && PastEntry(a'.state)
  {
    hide RowOf, Unwind, EvaluateExit, PerpNotional, Payment;
    if Unwind(w, a, "halt", e).book.open.Keys >= {sym} { UnwindKeepsTrade(w, a, "halt", e); }
    if Unwind(w, a, ResumeReason(a), e).book.open.Keys >= {sym} { UnwindKeepsTrade(w, a, ResumeReason(a), e); }
    if a.state.Hedged? && e.funding.Some? && (FundingDue(c, a, e) ==> e.sizeMark.Some?) {
      var a1, w1 := Booked(c, w, a, e);
      var v := EvaluateExit(c, a1, e.funding.value, e);
      if v.Leave? && sym in Unwind(w1, a1, v.reason, e).book.open {
        UnwindKeepsTrade(w1, a1, v.reason, e);
      }
    }
  }

  /** The record and the world once due funding has been booked. */
  lemma Booked(c: Config, w: World, a: ArbRecord, e: Replies) returns (a1: ArbRecord, w1: World)
    requires Held(w.book, a) && a.state.Hedged? && e.funding.Some? && (FundingDue(c, a, e) ==> e.sizeMark.Some?)
    ensures Manage(c, w, a, e) == ExitIfDue(c, w1, a1, e)
    ensures Held(w1.book, a1) && SameTrade(a, a1) && a1.state.Hedged?
    ensures a.accruedFunding == FundingSum(w.book.journal, a.arbId) ==>
            a1.accruedFunding == FundingSum(w1.book.journal, a.arbId)
    ensures FundingDue(c, a, e) ==>
      var notional := PerpNotional(a, e.sizeMark.value);
      var amount := Payment(notional, e.funding.value);
      && a1.lastFundingTs == e.t1 && a1.accruedFunding == a.accruedFunding + amount
      && w1.book.journal == w.book.journal + [FundingAccrued(a.arbId, e.funding.value, notional, amount)]
    ensures !FundingDue(c, a, e) ==> a1 == a && w1 == w
  {
    hide RowOf, ExitIfDue, PerpNotional, Payment, FundingSum;
    a1, w1 := a, w;
    if FundingDue(c, a, e) {
      var fr, notional := e.funding.value, PerpNotional(a, e.sizeMark.value);
      var ev := FundingAccrued(a.arbId, fr, notional, Payment(notional, fr));
      a1 := Accrue(a, Payment(notional, fr), e.t1);
      w1 := w.(book := Put(w.book, a1, ev));
      FundingSumGrows(w.book.journal, ev, a.arbId);
    }
  }

  // ----- what the closing tick persists -----

  /** The row reads back with the funding journalled for it and the change of the basis. */
  predicate CarryPaid(b: BookView, a: ArbRecord, e: Replies) {
    && a.arbId in b.table && b.table[a.arbId].state.Closed? && e.exitMark.Some? && e.spotSell.Some?
    && var r := FromDict(b.table[a.arbId].snapshot);
       var perpExit := e.exitMark.value;
       r.Some? && r.value.realizedPnl ==
         FundingSum(b.journal, a.arbId)
         + a.perpQty * ((a.perpEntryPrice - a.spotEntryPrice) - (perpExit - SpotExit(e.spotSell.value, perpExit)))
         - a.entryFees
  }

  /** Lifecycle events carry no funding. */
  lemma UnwindFunding(w: World, a: ArbRecord, reason: string, e: Replies)
    ensures FundingSum(Unwind(w, a, reason, e).book.journal, a.arbId) == FundingSum(w.book.journal, a.arbId)
  {
    hide RowOf, Realized, SpotExit, FundingSum;
    var j := w.book.journal;
    var step, last := Lifecycle(a.arbId, "ARB_LEG_UNWOUND"), Lifecycle(a.arbId, "ARB_CLOSED");
    FundingSumGrows(j, step, a.arbId);
    FundingSumGrows(j, last, a.arbId);
    FundingSumGrows(j + [step], step, a.arbId);
    FundingSumGrows(j + [step] + [step], last, a.arbId);
  }

  lemma UnwindPaysCarry(w: World, a: ArbRecord, reason: string, e: Replies)
    requires Held(w.book, a) && a.perpQty == a.spotQty && a.accruedFunding == FundingSum(w.book.journal, a.arbId)
    requires a.symbol !in Unwind(w, a, reason, e).book.open
    ensures CarryPaid(Unwind(w, a, reason, e).book, a, e)
  {
    hide Unwind, FundingSum, SpotExit, FromDict;
    UnwindPays(w, a, reason, e);
    UnwindFunding(w, a, reason, e);
  }

  lemma TickPaysCarry(c: Config, sym: string, w: World, a: ArbRecord, e: Replies)
    requires Held(w.book, a) && a.symbol == sym && PastEntry(a.state)
    requires a.perpQty == a.spotQty && a.accruedFunding == FundingSum(w.book.journal, a.arbId)
    requires sym !in Tick(c, sym, w, e).book.open
    ensures CarryPaid(Tick(c, sym, w, e).book, a, e)
  {
    hide RowOf, Unwind, CarryPaid, EvaluateExit, FundingSum;
    if w.halt {
      UnwindPaysCarry(w, a, "halt", e);
    } else if !a.state.Hedged? {
      UnwindPaysCarry(w, a, ResumeReason(a), e);
    } else {
      var a1, w1 := Booked(c, w, a, e);
      var v := EvaluateExit(c, a1, e.funding.value, e);
      UnwindPaysCarry(w1, a1, v.reason, e);
      SameCarry(Unwind(w1, a1, v.reason, e).book, a1, a, e);
    }
  }

  lemma SameCarry(b: BookView, a: ArbRecord, a': ArbRecord, e: Replies)
    requires CarryPaid(b, a, e) && SameTrade(a', a)
    ensures CarryPaid(b, a', e)
  {
    hide FromDict, SpotExit, FundingSum;
  }

  // ----- from the entry to the exit of a run -----

  lemma {:induction false} TradeKept(c: Config, sym: string, ws: seq<World>, acts: seq<Action>, clock: seq<int>,
                                     j: nat, i: nat)
    requires Run(c, sym, ws, acts, clock) && Sound(c.intervalMs, clock[0], ws[0].book)
    requires j < i < |ws| && forall m :: j < m <= i ==> sym in ws[m].book.open
    requires PastEntry(ws[j + 1].book.open[sym].state)
    ensures
      var a := ws[i].book.open[sym];
      SameTrade(ws[j + 1].book.open[sym], a) && PastEntry(a.state)
    decreases i
  {
    hide Sound, Timely, Tick, SameTrade, PastEntry, LoadedFrom;
    if i == j + 1 {
      SameAsIs(ws[i].book.open[sym]);
    } else {
      TradeKept(c, sym, ws, acts, clock, j, i - 1);
      RunKeepsBook(c, sym, ws, acts, clock, i - 1);
      StepKeepsBook(c, sym, ws[i - 1], acts[i - 1], ws[i], clock[i - 1], clock[i]);
      var a := ws[i - 1].book.open[sym];
      SoundHolds(c.intervalMs, clock[i - 1], ws[i - 1].book, sym);
      if acts[i - 1].Signal? {
        TickKeepsTrade(c, sym, ws[i - 1], a, acts[i - 1].e);
      }
      SameTwice(ws[j + 1].book.open[sym], a, ws[i].book.open[sym]);
    }
  }

  lemma SameAsIs(a: ArbRecord)
    ensures SameTrade(a, a)
  {
  }

  lemma SameTwice(a: ArbRecord, a': ArbRecord, a'': ArbRecord)
    requires SameTrade(a, a') && (a'' == a' || SameTrade(a', a''))
    ensures SameTrade(a, a'')
  {
  }

  lemma SoundHolds(interval: int, now: int, b: BookView, sym: string)
    requires Sound(interval, now, b) && sym in b.open
    ensures b.open[sym].symbol == sym && Held(b, b.open[sym])
    ensures b.open[sym].accruedFunding == FundingSum(b.journal, b.open[sym].arbId)
  {
    hide RowOf;
  }

  /** Funding, and the change of the basis on the size of the legs. */
  function Carry(funding: real, qty: real, entryBasis: real, exitBasis: real): real {
    funding + qty * (entryBasis - exitBasis)
  }

  lemma SameCarryIff(funding: real, qty: real, entryBasis: real, x: real, y: real)
    requires qty > 0.0
    ensures Carry(funding, qty, entryBasis, x) == Carry(funding, qty, entryBasis, y) <==> x == y
  {
  }

  /** The row of the hedge entered by e and closed by x: funding journalled for it, and its
      size times the basis of its entry fills less the basis the code reads at the exit. */
  predicate EarnedCarry(c: Config, b: BookView, e: Replies, x: Replies) {
    && e.sizeMark.Some? && e.perpSell.Some? && e.spotBuy.Some? && x.exitMark.Some? && x.spotSell.Some?
    && e.freshId in b.table && b.table[e.freshId].state.Closed?
    && var r := FromDict(b.table[e.freshId].snapshot);
       var entryBasis := e.perpSell.value.price - e.spotBuy.value.price;
       var exitBasis := x.exitMark.value - SpotExit(x.spotSell.value, x.exitMark.value);
       r.Some? && r.value.realizedPnl ==
         Carry(FundingSum(b.journal, e.freshId), SizeLegs(c, e.sizeMark.value), entryBasis, exitBasis)
  }

  /** A hedge opened by one tick of a run and taken off the book by a later one persists
      exactly the funding journalled for it plus its size times the basis between its entry
      fills less the basis between its exits. */
  lemma HedgeEarnsCarry(c: Config, sym: string, ws: seq<World>, acts: seq<Action>, clock: seq<int>, j: nat, k: nat)
    requires Run(c, sym, ws, acts, clock) && Sound(c.intervalMs, clock[0], ws[0].book)
    requires j < k < |acts| && acts[j].Signal? && acts[k].Signal?
    requires sym !in ws[j].book.open && (forall m :: j < m <= k ==> sym in ws[m].book.open)
    requires ws[j + 1].book.open[sym].state.Hedged? && sym !in ws[k + 1].book.open
    ensures EarnedCarry(c, ws[k + 1].book, acts[j].e, acts[k].e)
  {
    hide Sound, Timely, Tick, LoadedFrom, FundingSum, FromDict, SizeLegs, SpotExit;
    var last := ws[k].book.open[sym];
    EntryOpens(c, sym, ws[j], acts[j].e);
    TradeKept(c, sym, ws, acts, clock, j, k);
    RunKeepsBook(c, sym, ws, acts, clock, k);
    SoundHolds(c.intervalMs, clock[k], ws[k].book, sym);
    TickPaysCarry(c, sym, ws[k], last, acts[k].e);
  }

  // ----- the exit mark is not the exit fill -----

  /** What the fills of a hedge closed in one tick paid. */
  function PaidByFills(b: BookView, a: ArbRecord, e: Replies): real
    requires e.perpBuy.Some? && e.spotSell.Some?
  {
    FundingSum(b.journal, a.arbId)
    + a.perpQty * ((a.perpEntryPrice - a.spotEntryPrice) - (e.perpBuy.value.price - e.spotSell.value.price))
    - a.entryFees
  }

  /** The perp is bought back by the tick that takes the record past UNWINDING_PERP. */
  lemma BuysBack(c: Config, sym: string, w: World, a: ArbRecord, e: Replies)
    requires Held(w.book, a) && a.symbol == sym && (a.state.Hedged? || a.state.UnwindingPerp?)
    requires
      var open := Tick(c, sym, w, e).book.open;
      sym !in open || open[sym].state.UnwindingSpot?
    ensures e.perpBuy.Some?
  {
    hide RowOf, SellSpot, EvaluateExit, PerpNotional, Payment;
  }

  /** The recorded PnL of such a hedge is what its fills paid if and only if the mark read
      after the buy-back is the price at which the perp was bought back. */
  lemma RecordedIsPaidIff(c: Config, sym: string, w: World, a: ArbRecord, e: Replies)
    requires Held(w.book, a) && a.symbol == sym && a.state.Hedged?
    requires a.perpQty == a.spotQty > 0.0 && a.accruedFunding == FundingSum(w.book.journal, a.arbId)
    requires sym !in Tick(c, sym, w, e).book.open && (e.spotSell.Some? ==> e.spotSell.value.price != 0.0)
    ensures
      var b := Tick(c, sym, w, e).book;
      && e.perpBuy.Some? && e.exitMark.Some? && e.spotSell.Some? && a.arbId in b.table
      && var r := FromDict(b.table[a.arbId].snapshot);
         r.Some? && (r.value.realizedPnl == PaidByFills(b, a, e) <==> e.exitMark.value == e.perpBuy.value.price)
  {
    hide Tick, FromDict, FundingSum;
    BuysBack(c, sym, w, a, e);
    TickPaysCarry(c, sym, w, a, e);
    var spot := e.spotSell.value.price;
    var entry := a.perpEntryPrice - a.spotEntryPrice + spot;
    assert (a.perpEntryPrice - a.spotEntryPrice) - (e.exitMark.value - spot) == entry - e.exitMark.value;
    assert (a.perpEntryPrice - a.spotEntryPrice) - (e.perpBuy.value.price - spot) == entry - e.perpBuy.value.price;
  }

  /** The perp of the record had been bought back before step i or is by it. */
  ghost predicate PastPerp(sym: string, ws: seq<World>, i: nat)
    requires i + 1 < |ws|
  {
    sym !in ws[i + 1].book.open || ws[i + 1].book.open[sym].state.UnwindingSpot?
  }

  /** The tick that bought it back: the last before which the record still held its perp. */
  lemma {:induction false} BuyBackTick(c: Config, sym: string, ws: seq<World>, acts: seq<Action>, clock: seq<int>,
                                       j: nat, i: nat) returns (b: nat)
    requires Run(c, sym, ws, acts, clock) && Sound(c.intervalMs, clock[0], ws[0].book)
    requires j < i < |acts| && (forall m :: j < m <= i ==> sym in ws[m].book.open)
    requires ws[j + 1].book.open[sym].state.Hedged? && PastPerp(sym, ws, i)
    ensures j < b <= i && acts[b].Signal? && acts[b].e.perpBuy.Some?
    ensures !ws[b].book.open[sym].state.UnwindingSpot? && PastPerp(sym, ws, b)
    ensures forall m :: b < m <= i ==> ws[m].book.open[sym].state.UnwindingSpot?
    decreases i
  {
    hide Sound, Timely, Tick, LoadedFrom;
    if ws[i].book.open[sym].state.UnwindingSpot? {
      b := BuyBackTick(c, sym, ws, acts, clock, j, i - 1);
    } else {
      b := i;
      RunKeepsBook(c, sym, ws, acts, clock, i);
      StepKeepsBook(c, sym, ws[i], acts[i], ws[i + 1], clock[i], clock[i + 1]);
      SoundHolds(c.intervalMs, clock[i], ws[i].book, sym);
      TradeKept(c, sym, ws, acts, clock, j, i);
      BuysBack(c, sym, ws[i], ws[i].book.open[sym], acts[i].e);
    }
  }

  /** The row of the hedge entered by e and sold by x records what fills with this buy-back
      paid if and only if the exit mark is the buy-back price. */
  predicate RecordedIff(c: Config, b: BookView, e: Replies, x: Replies, buyBack: real) {
    && e.sizeMark.Some? && e.perpSell.Some? && e.spotBuy.Some? && x.exitMark.Some? && x.spotSell.Some?
    && e.freshId in b.table
    && var r := FromDict(b.table[e.freshId].snapshot);
       var entryBasis := e.perpSell.value.price - e.spotBuy.value.price;
       var paidBasis := buyBack - x.spotSell.value.price;
       var paid := Carry(FundingSum(b.journal, e.freshId), SizeLegs(c, e.sizeMark.value), entryBasis, paidBasis);
       r.Some? && (r.value.realizedPnl == paid <==> x.exitMark.value == buyBack)
  }

  /** The closed row against any price at which the perp may have been bought back. */
  lemma RecordedAgainst(c: Config, b: BookView, e: Replies, x: Replies, buyBack: real)
    requires EarnedCarry(c, b, e, x) && SizeLegs(c, e.sizeMark.value) > 0.0 && x.spotSell.value.price != 0.0
    ensures RecordedIff(c, b, e, x, buyBack)
  {
    hide FundingSum, FromDict, SizeLegs, Carry;
    SameCarryIff(FundingSum(b.journal, e.freshId), SizeLegs(c, e.sizeMark.value),
                 e.perpSell.value.price - e.spotBuy.value.price,
                 x.exitMark.value - x.spotSell.value.price, buyBack - x.spotSell.value.price);
  }

  lemma SpotSold(c: Config, b: BookView, e: Replies, x: Replies)
    requires EarnedCarry(c, b, e, x)
    ensures x.spotSell.Some?
  {
  }

  lemma EntrySized(c: Config, sym: string, ws: seq<World>, acts: seq<Action>, clock: seq<int>, j: nat)
    requires Run(c, sym, ws, acts, clock) && j < |acts| && acts[j].Signal?
    requires sym !in ws[j].book.open && sym in ws[j + 1].book.open && ws[j + 1].book.open[sym].state.Hedged?
    ensures OpenedBy(c, ws[j + 1].book.open[sym], acts[j].e)
  {
    hide Timely, Tick;
    EntryOpens(c, sym, ws[j], acts[j].e);
  }

  /** Over a run, however many ticks the exit took: the recorded PnL of a hedge is what its
      fills paid if and only if the mark at the sale of the spot leg is the price at which an
      earlier tick, or the same, had bought the perp back. */
  lemma HedgePaidIff(c: Config, sym: string, ws: seq<World>, acts: seq<Action>, clock: seq<int>, j: nat, k: nat)
    returns (b: nat)
    requires Run(c, sym, ws, acts, clock) && Sound(c.intervalMs, clock[0], ws[0].book)
    requires j < k < |acts| && acts[j].Signal? && acts[k].Signal?
    requires sym !in ws[j].book.open && (forall m :: j < m <= k ==> sym in ws[m].book.open)
    requires ws[j + 1].book.open[sym].state.Hedged? && sym !in ws[k + 1].book.open
    requires acts[k].e.spotSell.Some? ==> acts[k].e.spotSell.value.price != 0.0
    ensures j < b <= k && acts[b].Signal? && acts[b].e.perpBuy.Some?
    ensures !ws[b].book.open[sym].state.UnwindingSpot? && PastPerp(sym, ws, b)
    ensures RecordedIff(c, ws[k + 1].book, acts[j].e, acts[k].e, acts[b].e.perpBuy.value.price)
  {
    hide Sound, Step, Timely, RecordedIff, EarnedCarry, SizeLegs;
    b := BuyBackTick(c, sym, ws, acts, clock, j, k);
    HedgeEarnsCarry(c, sym, ws, acts, clock, j, k);
    EntrySized(c, sym, ws, acts, clock, j);
    SpotSold(c, ws[k + 1].book, acts[j].e, acts[k].e);
    RecordedAgainst(c, ws[k + 1].book, acts[j].e, acts[k].e, acts[b].e.perpBuy.value.price);
  }
}
