/** What every tick, and every run of ticks, HALT switches and restarts, keeps. */
module ArbSafety {
  import opened Wrappers
  import opened ArbRecords
  import opened ArbProtocol

  // ===== 1. The persisted state fixes the venue exposure =====

  predicate Paired(a: ArbRecord) {
    a.perpQty == a.spotQty > 0.0
  }

  /** The exposure each state stands for; no open record stands for flat. */
  predicate Matches(sym: string, w: World) {
    if sym !in w.book.open then w.perp == 0.0 && w.spot == 0.0
    else
      var a := w.book.open[sym];
      a.symbol == sym && Paired(a) &&
      match a.state
      case PlacingPerp => w.perp == 0.0 && w.spot == 0.0
      case PerpOnly => w.perp == -a.perpQty && w.spot == 0.0
      case Hedged => w.perp == -a.perpQty && w.spot == a.spotQty
      case UnwindingPerp => w.perp == -a.perpQty && (w.spot == 0.0 || w.spot == a.spotQty)
      case UnwindingSpot => w.perp == 0.0 && w.spot == a.spotQty
      case Closed => false
  }

  /** A failed rollback left a naked perp in UNWINDING_PERP; this tick resumes it as if a
      spot leg had been bought, and the buy-back goes through. */
  predicate BadResume(c: Config, sym: string, w: World, e: Replies) {
    && c.enabled && !w.halt && sym in w.book.open && w.book.open[sym].state.UnwindingPerp?
    && w.spot == 0.0 && e.perpBuy.Some?
  }

  lemma CompleteSpotMatches(sym: string, w: World, a: ArbRecord, e: Replies)
    requires a.symbol == sym && Paired(a) && w.perp == -a.perpQty && w.spot == 0.0
    ensures Matches(sym, CompleteSpot(w, a, e))
  {
    hide RowOf;
  }

  lemma EnterMatches(c: Config, sym: string, w: World, e: Replies)
    requires sym !in w.book.open && Matches(sym, w)
    ensures Matches(sym, Enter(c, sym, w, e))
  {
    hide RowOf, CompleteSpot, SizeLegs, EntryCondition, Basis;
    var w' := Enter(c, sym, w, e);
    if e.funding.Some? && Basis(e).Some? && e.sizeMark.Some? {
      var a := NewArb(sym, SizeLegs(c, e.sizeMark.value), Basis(e).value, e);
      if w' == PlacePerp(w, a, e) && e.perpSell.Some? && a.perpQty > 0.0 {
        var a' := a.(perpEntryPrice := e.perpSell.value.price, perpOrderId := e.perpSell.value.orderId,
                     state := PerpOnly);
        var b := Put(Put(w.book, a', Lifecycle(a.arbId, "ARB_OPENING")), a',
                     Lifecycle(a.arbId, "ARB_PERP_LEG_FILLED"));
        CompleteSpotMatches(sym, w.(book := b, perp := w.perp - a.perpQty), a', e);
      }
    }
  }

  lemma UnwindMatches(sym: string, w: World, a: ArbRecord, reason: string, e: Replies)
    requires sym in w.book.open && w.book.open[sym] == a && Matches(sym, w)
    requires a.state.Hedged? || a.state.UnwindingPerp? || a.state.UnwindingSpot?
    ensures Matches(sym, Unwind(w, a, reason, e)) <==> !(a.state.UnwindingPerp? && w.spot == 0.0 && e.perpBuy.Some?)
  {
    hide RowOf, Realized, SpotExit;
  }

  lemma ManageMatches(c: Config, sym: string, w: World, a: ArbRecord, e: Replies)
    requires sym in w.book.open && w.book.open[sym] == a && a.state.Hedged? && Matches(sym, w)
    ensures Matches(sym, Manage(c, w, a, e))
  {
    hide RowOf, Unwind, EvaluateExit, PerpNotional, Payment;
    if e.funding.Some? && (FundingDue(c, a, e) ==> e.sizeMark.Some?) {
      var fr := e.funding.value;
      var a', w' := a, w;
      if FundingDue(c, a, e) {
        var notional := PerpNotional(a, e.sizeMark.value);
        a' := Accrue(a, Payment(notional, fr), e.t1);
        w' := w.(book := Put(w.book, a', FundingAccrued(a.arbId, fr, notional, Payment(notional, fr))));
      }
      var v := EvaluateExit(c, a', fr, e);
      if v.Leave? {
        UnwindMatches(sym, w', a', v.reason, e);
      }
    }
  }

  /** One tick from a matching world: it still matches, unless it was a bad resume. */
  lemma TickMatches(c: Config, sym: string, w: World, e: Replies)
    requires Matches(sym, w)
    ensures Matches(sym, Tick(c, sym, w, e)) <==> !BadResume(c, sym, w, e)
  {
    hide RowOf, Unwind, Enter, Manage, CompleteSpot;
    if c.enabled {
      if sym !in w.book.open {
        if !w.halt { EnterMatches(c, sym, w, e); }
      } else {
        var a := w.book.open[sym];
        if a.state.Hedged? || a.state.UnwindingPerp? || a.state.UnwindingSpot? {
          UnwindMatches(sym, w, a, if w.halt then "halt" else ResumeReason(a), e);
        }
        if a.state.Hedged? { ManageMatches(c, sym, w, a, e); }
        if a.state.PerpOnly? { CompleteSpotMatches(sym, w, a, e); }
      }
    }
  }

  /** What a bad resume does: the venue ends short q spot with nothing on record. */
  lemma BadResumeOversells(c: Config, sym: string, w: World, e: Replies)
    requires Matches(sym, w) && BadResume(c, sym, w, e)
    requires e.exitMark.Some? && e.spotSell.Some?
    ensures
      var w' := Tick(c, sym, w, e);
      sym !in w'.book.open && w'.perp == 0.0 && w'.spot == -w.book.open[sym].spotQty < 0.0
  {
  }

  // ===== 2. Where a tick may end, and what HALT forbids =====

  predicate Settled(sym: string, w: World) {
    sym in w.book.open ==>
      var a := w.book.open[sym];
      a.state.Hedged? || a.state.UnwindingPerp? || a.state.UnwindingSpot?
  }

  /** The open record is its symbol's and not closed. */
  predicate Proper(sym: string, w: World) {
    sym in w.book.open ==> w.book.open[sym].symbol == sym && !w.book.open[sym].state.Closed?
  }

  /** How a step of the protocol that sends orders may end. */
  predicate EndsWell(sym: string, w: World, w': World, e: Replies) {
    && Proper(sym, w') && Settled(sym, w') && (w.halt ==> w'.halt)
    && (sym in w'.book.open && w'.book.open[sym].state.UnwindingPerp? ==> w'.halt && e.perpBuy.None?)
  }

  lemma CompleteSpotEnds(w: World, a: ArbRecord, e: Replies)
    ensures EndsWell(a.symbol, w, CompleteSpot(w, a, e), e)
  {
    hide RowOf;
  }

  lemma UnwindEnds(w: World, a: ArbRecord, reason: string, e: Replies)
    requires a.symbol in w.book.open && w.book.open[a.symbol] == a
    requires a.state.Hedged? || a.state.UnwindingPerp? || a.state.UnwindingSpot?
    ensures EndsWell(a.symbol, w, Unwind(w, a, reason, e), e)
  {
    hide RowOf, Realized, SpotExit;
  }

  lemma ManageEnds(c: Config, w: World, a: ArbRecord, e: Replies)
    requires a.symbol in w.book.open && w.book.open[a.symbol] == a && a.state.Hedged?
    ensures EndsWell(a.symbol, w, Manage(c, w, a, e), e)
  {
    hide RowOf, Unwind, EvaluateExit, PerpNotional, Payment;
    if e.funding.Some? && (FundingDue(c, a, e) ==> e.sizeMark.Some?) {
      var fr := e.funding.value;
      var a', w' := a, w;
      if FundingDue(c, a, e) {
        var notional := PerpNotional(a, e.sizeMark.value);
        a' := Accrue(a, Payment(notional, fr), e.t1);
        w' := w.(book := Put(w.book, a', FundingAccrued(a.arbId, fr, notional, Payment(notional, fr))));
      }
      var v := EvaluateExit(c, a', fr, e);
      if v.Leave? { UnwindEnds(w', a', v.reason, e); }
    }
  }

  lemma EnterEnds(c: Config, sym: string, w: World, e: Replies)
    requires sym !in w.book.open
    ensures EndsWell(sym, w, Enter(c, sym, w, e), e)
  {
    hide RowOf, CompleteSpot, SizeLegs, Basis, EntryCondition;
    if e.funding.Some? && Basis(e).Some? && e.sizeMark.Some? && e.perpSell.Some? {
      var a := NewArb(sym, SizeLegs(c, e.sizeMark.value), Basis(e).value, e);
      var a' := a.(perpEntryPrice := e.perpSell.value.price, perpOrderId := e.perpSell.value.orderId,
                   state := PerpOnly);
      var b := Put(Put(w.book, a', Lifecycle(a.arbId, "ARB_OPENING")), a', Lifecycle(a.arbId, "ARB_PERP_LEG_FILLED"));
      CompleteSpotEnds(w.(book := b, perp := w.perp - a.perpQty), a', e);
    }
  }

  /** A tick without HALT leaves nothing half-entered.  A tick that changes anything and leaves
      a record in UNWINDING_PERP is one whose perp buy-back was refused, which trips HALT. */
  lemma TickEnds(c: Config, sym: string, w: World, e: Replies)
    requires c.enabled && Proper(sym, w)
    ensures
      var w' := Tick(c, sym, w, e);
      && Proper(sym, w')
      && (!w.halt || Settled(sym, w) ==> Settled(sym, w'))
      && (sym in w'.book.open && w'.book.open[sym].state.UnwindingPerp? ==>
            w'.halt && (w' == w || e.perpBuy.None?))
      && (w.halt ==> w'.halt)
  {
    hide RowOf, CompleteSpot, Unwind, Manage, Enter;
    if sym !in w.book.open {
      EnterEnds(c, sym, w, e);
    } else {
      var a := w.book.open[sym];
      CompleteSpotEnds(w, a, e);
      if a.state.Hedged? { ManageEnds(c, w, a, e); }
      if a.state.Hedged? || a.state.UnwindingPerp? || a.state.UnwindingSpot? {
        UnwindEnds(w, a, if w.halt then "halt" else ResumeReason(a), e);
      }
    }
  }

  /** Outside HALT no tick ends net short: a naked perp always trips the switch. */
  lemma NeverNakedShort(c: Config, sym: string, w: World, e: Replies)
    requires c.enabled && Matches(sym, w) && !w.halt && !BadResume(c, sym, w, e)
    requires !Tick(c, sym, w, e).halt
    ensures Tick(c, sym, w, e).perp + Tick(c, sym, w, e).spot >= 0.0
  {
    hide Tick;
    TickMatches(c, sym, w, e);
    TickEnds(c, sym, w, e);
  }

  function Gross(w: World): real {
    Abs(w.perp) + Abs(w.spot)
  }

  /** Under HALT the only orders are the two legs of unwinding a hedge. */
  lemma HaltOnlyUnwinds(c: Config, sym: string, w: World, e: Replies)
    requires w.halt && Matches(sym, w)
    ensures
      var w' := Tick(c, sym, w, e);
      && Gross(w') <= Gross(w)
      && (w' != w ==> sym in w.book.open && w.book.open[sym].state.Hedged?)
      && (w' == w || (w'.perp, w'.spot) == (w.perp, w.spot) || (w'.perp, w'.spot) == (0.0, w.spot)
          || (w'.perp, w'.spot) == (0.0, 0.0))
  {
  }

  // ===== 3. Runs =====

  datatype Action = Signal(e: Replies) | TripHalt | ClearHalt | Restart

  /** A restart may rebuild any open map the rows allow. */
  ghost predicate Step(c: Config, sym: string, w: World, act: Action, w': World) {
    match act
    case Signal(e) => w' == Tick(c, sym, w, e)
    case TripHalt => w' == w.(halt := true)
    case ClearHalt => w' == w.(halt := false)
    case Restart =>
      && w'.halt == w.halt && w'.perp == w.perp && w'.spot == w.spot
      && w'.book.table == w.book.table && w'.book.journal == w.book.journal
      && LoadedFrom(w'.book.open, w.book.table)
  }

  // ----- the book is a faithful cache -----

  /** Memory and table agree: one row per open record, and every row that is not CLOSED
      belongs to one. */
  predicate Faithful(b: BookView) {
    && (forall s :: s in b.open ==>
          var a := b.open[s];
          a.symbol == s && !a.state.Closed? && a.arbId in b.table && b.table[a.arbId] == RowOf(a))
    && (forall id :: id in b.table && !b.table[id].state.Closed? ==>
          b.table[id].symbol in b.open && b.open[b.table[id].symbol].arbId == id)
  }

  lemma RowLoads(a: ArbRecord, r: ArbRecord)
    ensures Loads(RowOf(a), r) <==> !a.state.Closed? && r == a
  {
    hide ToDict, FromDict;
    DictRoundTrip(a);
  }

  /** Whatever order the rows come in, reloading them rebuilds the map that was lost. */
  lemma ReloadIsExact(b: BookView, m: map<string, ArbRecord>)
    requires Faithful(b) && LoadedFrom(m, b.table)
    ensures m == b.open
  {
    hide ToDict, FromDict, Loads;
    forall s | s in m
      ensures s in b.open && m[s] == b.open[s]
    {
      var id :| id in b.table && Loads(b.table[id], m[s]);
      LoadedRowIsOpen(b, id, m[s]);
    }
    forall s | s in b.open
      ensures s in m
    {
      RowLoads(b.open[s], b.open[s]);
    }
  }

  lemma LoadedRowIsOpen(b: BookView, id: string, a: ArbRecord)
    requires Faithful(b) && id in b.table && Loads(b.table[id], a)
    ensures a.symbol in b.open && b.open[a.symbol] == a
  {
    hide RowOf, FromDict;
    RowLoads(b.open[b.table[id].symbol], a);
  }

  // ----- the ledger and the clock -----

  function FundingSum(j: seq<Event>, id: string): real {
    if j == [] then 0.0
    else
      var e := j[|j| - 1];
      FundingSum(j[..|j| - 1], id) + if e.FundingAccrued? && e.arbId == id then e.amount else 0.0
  }

  lemma FundingSumGrows(j: seq<Event>, e: Event, id: string)
    ensures FundingSum(j + [e], id) ==
            FundingSum(j, id) + if e.FundingAccrued? && e.arbId == id then e.amount else 0.0
  {
  }

  lemma {:induction false} NoEventsNoFunding(j: seq<Event>, id: string)
    requires forall k :: 0 <= k < |j| ==> j[k].arbId != id
    ensures FundingSum(j, id) == 0.0
    decreases |j|
  {
    if j != [] {
      NoEventsNoFunding(j[..|j| - 1], id);
    }
  }

  /** Accrued funding is the sum of the journalled accruals, and accruals are at least
      one interval apart. */
  predicate Accounted(interval: int, now: int, j: seq<Event>, a: ArbRecord) {
    && a.accruedFunding == FundingSum(j, a.arbId)
    && a.fundingPayments >= 0 && a.fundingPayments * interval <= a.lastFundingTs - a.openTime
    && a.lastFundingTs <= now
  }

  predicate Sound(interval: int, now: int, b: BookView) {
    && Faithful(b)
    && (forall s :: s in b.open ==> Accounted(interval, now, b.journal, b.open[s]))
    && (forall k :: 0 <= k < |b.journal| ==> b.journal[k].arbId in b.table)
  }

  predicate Held(b: BookView, a: ArbRecord) {
    a.symbol in b.open && b.open[a.symbol] == a
  }

  predicate SameLedger(a: ArbRecord, a': ArbRecord) {
    && a'.arbId == a.arbId && a'.symbol == a.symbol && a'.accruedFunding == a.accruedFunding
    && a'.fundingPayments == a.fundingPayments && a'.openTime == a.openTime && a'.lastFundingTs == a.lastFundingTs
  }

  /** The record is its symbol's open one, or neither its symbol nor its id is in use. */
  predicate Placeable(b: BookView, a: ArbRecord) {
    if a.symbol in b.open then b.open[a.symbol].arbId == a.arbId else a.arbId !in b.table
  }

  lemma PutFaithful(b: BookView, a: ArbRecord, e: Event)
    requires Faithful(b) && Placeable(b, a)
    ensures Faithful(Put(b, a, e))
  {
    hide ToDict;
  }

  lemma DistinctIds(b: BookView, s: string, t: string)
    requires Faithful(b) && s in b.open && t in b.open && b.open[s].arbId == b.open[t].arbId
    ensures s == t
  {
  }

  /** The other open records' accounts are not touched by an event about a. */
  lemma OthersAccounted(interval: int, now: int, b: BookView, id: string, e: Event)
    requires forall s :: s in b.open ==> Accounted(interval, now, b.journal, b.open[s])
    requires e.arbId == id
    ensures forall s :: s in b.open && b.open[s].arbId != id ==> Accounted(interval, now, b.journal + [e], b.open[s])
  {
  }

  /** Putting a successor of an open record keeps the book sound. */
  lemma PutSound(interval: int, now: int, b: BookView, a: ArbRecord, a': ArbRecord, e: Event)
    requires Sound(interval, now, b) && Held(b, a)
    requires a'.arbId == a.arbId && a'.symbol == a.symbol && e.arbId == a.arbId
    requires Accounted(interval, now, b.journal + [e], a')
    ensures Sound(interval, now, Put(b, a', e))
    ensures !a'.state.Closed? ==> Held(Put(b, a', e), a')
  {
    hide RowOf, Accounted, Faithful;
    PutFaithful(b, a', e);
    OthersAccounted(interval, now, b, a.arbId, e);
    forall s | s in b.open && b.open[s].arbId == a.arbId
      ensures s == a.symbol
    {
      DistinctIds(b, s, a.symbol);
    }
  }

  lemma StepSound(interval: int, now: int, b: BookView, a: ArbRecord, a': ArbRecord, kind: string)
    requires Sound(interval, now, b) && Held(b, a) && SameLedger(a, a')
    ensures Sound(interval, now, Put(b, a', Lifecycle(a.arbId, kind)))
    ensures !a'.state.Closed? ==> Held(Put(b, a', Lifecycle(a.arbId, kind)), a')
  {
    hide Put;
    FundingSumGrows(b.journal, Lifecycle(a.arbId, kind), a.arbId);
    PutSound(interval, now, b, a, a', Lifecycle(a.arbId, kind));
  }

  lemma FreshSound(interval: int, now: int, b: BookView, a: ArbRecord, kind: string)
    requires Sound(interval, now, b) && a.symbol !in b.open && a.arbId !in b.table
    requires a.accruedFunding == 0.0 && a.fundingPayments == 0 && a.openTime <= a.lastFundingTs <= now
    ensures Sound(interval, now, Put(b, a, Lifecycle(a.arbId, kind)))
    ensures !a.state.Closed? ==> Held(Put(b, a, Lifecycle(a.arbId, kind)), a)
  {
    hide RowOf;
    var e := Lifecycle(a.arbId, kind);
    PutFaithful(b, a, e);
    NoEventsNoFunding(b.journal, a.arbId);
    FundingSumGrows(b.journal, e, a.arbId);
    OthersAccounted(interval, now, b, a.arbId, e);
  }

  lemma RollbackSound(interval: int, now: int, w: World, a: ArbRecord, e: Replies)
    requires Sound(interval, now, w.book) && Held(w.book, a)
    ensures Sound(interval, now, Rollback(w, a, e).book)
  {
    hide Put, Sound, Held;
    var a' := a.(state := UnwindingPerp);
    StepSound(interval, now, w.book, a, a', "ARB_LEG_UNWOUND");
    var b := Put(w.book, a', Lifecycle(a.arbId, "ARB_LEG_UNWOUND"));
    StepSound(interval, now, b, a', a', "ARB_ENTRY_ROLLED_BACK");
    var b' := Put(b, a', Lifecycle(a.arbId, "ARB_ENTRY_ROLLED_BACK"));
    StepSound(interval, now, b', a', Settle(a', "entry_rolled_back", 0.0, e.t2), "ARB_CLOSED");
  }

  lemma CompleteSpotSound(interval: int, now: int, w: World, a: ArbRecord, e: Replies)
    requires Sound(interval, now, w.book) && Held(w.book, a)
    ensures Sound(interval, now, CompleteSpot(w, a, e).book)
  {
    hide Put, Sound, Held, Rollback;
    RollbackSound(interval, now, w, a, e);
    if e.spotBuy.Some? {
      var a' := a.(spotEntryPrice := e.spotBuy.value.price, spotOrderId := e.spotBuy.value.orderId, state := Hedged);
      StepSound(interval, now, w.book, a, a', "ARB_OPENED");
    }
  }

  lemma EnterSound(c: Config, now: int, sym: string, w: World, e: Replies)
    requires Sound(c.intervalMs, now, w.book) && sym !in w.book.open
    requires e.freshId !in w.book.table && e.t0 <= e.t1 <= now
    ensures Sound(c.intervalMs, now, Enter(c, sym, w, e).book)
  {
    hide Put, Sound, Held, CompleteSpot, SizeLegs, Basis, EntryCondition;
    if e.funding.Some? && Basis(e).Some? && e.sizeMark.Some? {
      var a := NewArb(sym, SizeLegs(c, e.sizeMark.value), Basis(e).value, e);
      FreshSound(c.intervalMs, now, w.book, a.(state := Closed), "ARB_ENTRY_ROLLED_BACK");
      if e.perpSell.Some? {
        var a' := a.(perpEntryPrice := e.perpSell.value.price, perpOrderId := e.perpSell.value.orderId,
                     state := PerpOnly);
        FreshSound(c.intervalMs, now, w.book, a', "ARB_OPENING");
        var b := Put(w.book, a', Lifecycle(a.arbId, "ARB_OPENING"));
        StepSound(c.intervalMs, now, b, a', a', "ARB_PERP_LEG_FILLED");
        var b' := Put(b, a', Lifecycle(a.arbId, "ARB_PERP_LEG_FILLED"));
        CompleteSpotSound(c.intervalMs, now, w.(book := b', perp := w.perp - a.perpQty), a', e);
      }
    }
  }

  lemma SellSpotSound(interval: int, now: int, w: World, a: ArbRecord, reason: string, e: Replies)
    requires Sound(interval, now, w.book) && Held(w.book, a)
    ensures Sound(interval, now, SellSpot(w, a, reason, e).book)
  {
    hide Put, Sound, Held, Realized, SpotExit;
    if e.exitMark.Some? && e.spotSell.Some? {
      var pnl := Realized(a, e.exitMark.value, SpotExit(e.spotSell.value, e.exitMark.value));
      StepSound(interval, now, w.book, a, Settle(a, reason, pnl, e.t2), "ARB_CLOSED");
    }
  }

  lemma UnwindSound(interval: int, now: int, w: World, a: ArbRecord, reason: string, e: Replies)
    requires Sound(interval, now, w.book) && Held(w.book, a)
    ensures Sound(interval, now, Unwind(w, a, reason, e).book)
  {
    hide Put, Sound, Held, SellSpot;
    if a.state.Hedged? || a.state.UnwindingPerp? {
      var a', a'' := a.(state := UnwindingPerp), a.(state := UnwindingSpot);
      StepSound(interval, now, w.book, a, a', "ARB_LEG_UNWOUND");
      var b := Put(w.book, a', Lifecycle(a.arbId, "ARB_LEG_UNWOUND"));
      StepSound(interval, now, b, a', a'', "ARB_LEG_UNWOUND");
      var b' := Put(b, a'', Lifecycle(a.arbId, "ARB_LEG_UNWOUND"));
      SellSpotSound(interval, now, w.(book := b', perp := w.perp + a.perpQty), a'', reason, e);
    } else {
      SellSpotSound(interval, now, w, a, reason, e);
    }
  }

  lemma AccrualSound(c: Config, now: int, b: BookView, a: ArbRecord, rate: real, notional: real, amount: real,
                     e: Replies)
    requires Sound(c.intervalMs, now, b) && Held(b, a)
    requires FundingDue(c, a, e) && e.t0 <= e.t1 <= now
    ensures
      var a' := Accrue(a, amount, e.t1);
      var b' := Put(b, a', FundingAccrued(a.arbId, rate, notional, amount));
      Sound(c.intervalMs, now, b') && (!a.state.Closed? ==> Held(b', a'))
  {
    hide Put;
    var a', ev := Accrue(a, amount, e.t1), FundingAccrued(a.arbId, rate, notional, amount);
    FundingSumGrows(b.journal, ev, a.arbId);
    assert (a.fundingPayments + 1) * c.intervalMs == a.fundingPayments * c.intervalMs + c.intervalMs;
    PutSound(c.intervalMs, now, b, a, a', ev);
  }

  lemma ManageSound(c: Config, now: int, w: World, a: ArbRecord, e: Replies)
    requires Sound(c.intervalMs, now, w.book) && Held(w.book, a) && a.state.Hedged?
    requires e.t0 <= e.t1 <= now
    ensures Sound(c.intervalMs, now, Manage(c, w, a, e).book)
  {
    hide Put, Sound, Held, Unwind, EvaluateExit, PerpNotional, Payment;
    if e.funding.Some? && (FundingDue(c, a, e) ==> e.sizeMark.Some?) {
      var fr := e.funding.value;
      var a', w' := a, w;
      if FundingDue(c, a, e) {
        var notional := PerpNotional(a, e.sizeMark.value);
        AccrualSound(c, now, w.book, a, fr, notional, Payment(notional, fr), e);
        a' := Accrue(a, Payment(notional, fr), e.t1);
        w' := w.(book := Put(w.book, a', FundingAccrued(a.arbId, fr, notional, Payment(notional, fr))));
      }
      UnwindSound(c.intervalMs, now, w', a',
                  if EvaluateExit(c, a', fr, e).Leave? then EvaluateExit(c, a', fr, e).reason else "", e);
    }
  }

  lemma ResolveSound(interval: int, now: int, w: World, a: ArbRecord, e: Replies)
    requires Sound(interval, now, w.book) && Held(w.book, a)
    ensures Sound(interval, now, Resolve(w, a, e).book)
  {
    hide Put, Sound, Held, Unwind, CompleteSpot;
    CompleteSpotSound(interval, now, w, a, e);
    UnwindSound(interval, now, w, a, ResumeReason(a), e);
    StepSound(interval, now, w.book, a, Settle(a, "abandoned_placing", 0.0, e.t2), "ARB_CLOSED");
  }

  /** At the end of every tick memory and table agree, the books balance, and no two
      accruals are less than an interval apart. */
  lemma TickSound(c: Config, now: int, sym: string, w: World, e: Replies)
    requires Sound(c.intervalMs, now, w.book)
    requires e.freshId !in w.book.table && now <= e.t0 <= e.t1 <= e.t2
    ensures Sound(c.intervalMs, e.t2, Tick(c, sym, w, e).book)
  {
    if sym !in w.book.open {
      EnterSound(c, e.t2, sym, w, e);
    } else {
      TickHeldSound(c, e.t2, sym, w, w.book.open[sym], e);
    }
  }

  lemma TickHeldSound(c: Config, now: int, sym: string, w: World, a: ArbRecord, e: Replies)
    requires Sound(c.intervalMs, now, w.book) && sym in w.book.open && w.book.open[sym] == a
    requires e.t0 <= e.t1 <= now
    ensures Sound(c.intervalMs, now, Tick(c, sym, w, e).book)
  {
    assert Held(w.book, a);
    hide Put, Sound, Held, Unwind, Manage, Resolve;
    UnwindSound(c.intervalMs, now, w, a, "halt", e);
    ResolveSound(c.intervalMs, now, w, a, e);
    if a.state.Hedged? {
      ManageSound(c, now, w, a, e);
    }
  }

  // ----- a tick writes one row -----

  /** From b0 to b the record of one id and symbol was written, or nothing was. */
  ghost predicate Wrote(sym: string, id: string, b0: BookView, b: BookView) {
    || (b.open == b0.open && b.table == b0.table)
    || exists x: ArbRecord :: WroteThis(sym, id, b0, b, x)
  }

  predicate WroteThis(sym: string, id: string, b0: BookView, b: BookView, x: ArbRecord) {
    && x.symbol == sym && x.arbId == id && b.table == b0.table[id := RowOf(x)]
    && b.open == if x.state.Closed? then b0.open - {sym} else b0.open[sym := x]
  }

  /** Writing again overwrites. */
  lemma PutWrites(b0: BookView, b: BookView, a: ArbRecord, e: Event)
    requires Wrote(a.symbol, a.arbId, b0, b)
    ensures Wrote(a.symbol, a.arbId, b0, Put(b, a, e))
  {
    hide RowOf;
    if x :| WroteThis(a.symbol, a.arbId, b0, b, x) {
      assert (b0.open[a.symbol := x])[a.symbol := a] == b0.open[a.symbol := a];
      assert (b0.open - {a.symbol})[a.symbol := a] == b0.open[a.symbol := a];
      assert b0.open[a.symbol := x] - {a.symbol} == b0.open - {a.symbol};
      assert (b0.table[a.arbId := RowOf(x)])[a.arbId := RowOf(a)] == b0.table[a.arbId := RowOf(a)];
    }
    assert WroteThis(a.symbol, a.arbId, b0, Put(b, a, e), a);
  }

  lemma RollbackWrites(b0: BookView, w: World, a: ArbRecord, e: Replies)
    requires Wrote(a.symbol, a.arbId, b0, w.book)
    ensures Wrote(a.symbol, a.arbId, b0, Rollback(w, a, e).book)
  {
    hide Put, Wrote;
    var a' := a.(state := UnwindingPerp);
    PutWrites(b0, w.book, a', Lifecycle(a.arbId, "ARB_LEG_UNWOUND"));
    var b := Put(w.book, a', Lifecycle(a.arbId, "ARB_LEG_UNWOUND"));
    PutWrites(b0, b, a', Lifecycle(a.arbId, "ARB_ENTRY_ROLLED_BACK"));
    var b' := Put(b, a', Lifecycle(a.arbId, "ARB_ENTRY_ROLLED_BACK"));
    PutWrites(b0, b', Settle(a', "entry_rolled_back", 0.0, e.t2), Lifecycle(a.arbId, "ARB_CLOSED"));
  }

  lemma CompleteSpotWrites(b0: BookView, w: World, a: ArbRecord, e: Replies)
    requires Wrote(a.symbol, a.arbId, b0, w.book)
    ensures Wrote(a.symbol, a.arbId, b0, CompleteSpot(w, a, e).book)
  {
    hide Put, Wrote, Rollback;
    RollbackWrites(b0, w, a, e);
    if e.spotBuy.Some? {
      var a' := a.(spotEntryPrice := e.spotBuy.value.price, spotOrderId := e.spotBuy.value.orderId, state := Hedged);
      PutWrites(b0, w.book, a', Lifecycle(a.arbId, "ARB_OPENED"));
    }
  }

  lemma SellSpotWrites(b0: BookView, w: World, a: ArbRecord, reason: string, e: Replies)
    requires Wrote(a.symbol, a.arbId, b0, w.book)
    ensures Wrote(a.symbol, a.arbId, b0, SellSpot(w, a, reason, e).book)
  {
    hide Put, Wrote, Realized, SpotExit;
    if e.exitMark.Some? && e.spotSell.Some? {
      var pnl := Realized(a, e.exitMark.value, SpotExit(e.spotSell.value, e.exitMark.value));
      PutWrites(b0, w.book, Settle(a, reason, pnl, e.t2), Lifecycle(a.arbId, "ARB_CLOSED"));
    }
  }

  lemma UnwindWrites(b0: BookView, w: World, a: ArbRecord, reason: string, e: Replies)
    requires Wrote(a.symbol, a.arbId, b0, w.book)
    ensures Wrote(a.symbol, a.arbId, b0, Unwind(w, a, reason, e).book)
  {
    hide Put, Wrote, SellSpot;
    if a.state.Hedged? || a.state.UnwindingPerp? {
      var a', a'' := a.(state := UnwindingPerp), a.(state := UnwindingSpot);
      PutWrites(b0, w.book, a', Lifecycle(a.arbId, "ARB_LEG_UNWOUND"));
      var b := Put(w.book, a', Lifecycle(a.arbId, "ARB_LEG_UNWOUND"));
      PutWrites(b0, b, a'', Lifecycle(a.arbId, "ARB_LEG_UNWOUND"));
      var b' := Put(b, a'', Lifecycle(a.arbId, "ARB_LEG_UNWOUND"));
      SellSpotWrites(b0, w.(book := b', perp := w.perp + a.perpQty), a'', reason, e);
    } else {
      SellSpotWrites(b0, w, a, reason, e);
    }
  }

  lemma NothingWritten(sym: string, id: string, b: BookView)
    ensures Wrote(sym, id, b, b)
  {
  }

  lemma ManageWrites(c: Config, w: World, a: ArbRecord, e: Replies)
    ensures Wrote(a.symbol, a.arbId, w.book, Manage(c, w, a, e).book)
  {
    hide Wrote, Unwind, Put, EvaluateExit, PerpNotional, Payment;
    NothingWritten(a.symbol, a.arbId, w.book);
    if e.funding.Some? && (FundingDue(c, a, e) ==> e.sizeMark.Some?) {
      var fr := e.funding.value;
      var a', w' := a, w;
      if FundingDue(c, a, e) {
        var notional := PerpNotional(a, e.sizeMark.value);
        var ev := FundingAccrued(a.arbId, fr, notional, Payment(notional, fr));
        a' := Accrue(a, Payment(notional, fr), e.t1);
        PutWrites(w.book, w.book, a', ev);
        w' := w.(book := Put(w.book, a', ev));
      }
      var v := EvaluateExit(c, a', fr, e);
      if v.Leave? {
        UnwindWrites(w.book, w', a', v.reason, e);
      }
    }
  }

  lemma EnterWrites(c: Config, sym: string, w: World, e: Replies)
    ensures Wrote(sym, e.freshId, w.book, Enter(c, sym, w, e).book)
  {
    hide Wrote, CompleteSpot, Put, SizeLegs, Basis, EntryCondition;
    NothingWritten(sym, e.freshId, w.book);
    if e.funding.Some? && Basis(e).Some? && e.sizeMark.Some? {
      var a := NewArb(sym, SizeLegs(c, e.sizeMark.value), Basis(e).value, e);
      PutWrites(w.book, w.book, a.(state := Closed), Lifecycle(a.arbId, "ARB_ENTRY_ROLLED_BACK"));
      if e.perpSell.Some? {
        var a' := a.(perpEntryPrice := e.perpSell.value.price, perpOrderId := e.perpSell.value.orderId,
                     state := PerpOnly);
        PutWrites(w.book, w.book, a', Lifecycle(a.arbId, "ARB_OPENING"));
        var b := Put(w.book, a', Lifecycle(a.arbId, "ARB_OPENING"));
        PutWrites(w.book, b, a', Lifecycle(a.arbId, "ARB_PERP_LEG_FILLED"));
        var b' := Put(b, a', Lifecycle(a.arbId, "ARB_PERP_LEG_FILLED"));
        CompleteSpotWrites(w.book, w.(book := b', perp := w.perp - a.perpQty), a', e);
      }
    }
  }

  /** The record a tick writes: the open one, or a new one under the fresh id. */
  function Written(sym: string, b: BookView, e: Replies): string {
    if sym in b.open then b.open[sym].arbId else e.freshId
  }

  /** Whatever it does, a tick writes at most the row of its own record. */
  lemma TickWrites(c: Config, sym: string, w: World, e: Replies)
    requires sym in w.book.open ==> w.book.open[sym].symbol == sym
    ensures Wrote(sym, Written(sym, w.book, e), w.book, Tick(c, sym, w, e).book)
  {
    hide Wrote, CompleteSpot, Unwind, Put, Manage, Enter;
    NothingWritten(sym, Written(sym, w.book, e), w.book);
    if sym in w.book.open {
      var a := w.book.open[sym];
      CompleteSpotWrites(w.book, w, a, e);
      UnwindWrites(w.book, w, a, "halt", e);
      UnwindWrites(w.book, w, a, ResumeReason(a), e);
      PutWrites(w.book, w.book, Settle(a, "abandoned_placing", 0.0, e.t2), Lifecycle(a.arbId, "ARB_CLOSED"));
      ManageWrites(c, w, a, e);
    } else {
      EnterWrites(c, sym, w, e);
    }
  }

  /** Other symbols' records are none of this manager's business. */
  lemma OtherSymbolsUntouched(c: Config, sym: string, w: World, e: Replies)
    requires sym in w.book.open ==> w.book.open[sym].symbol == sym
    ensures Tick(c, sym, w, e).book.open - {sym} == w.book.open - {sym}
  {
    hide Tick, RowOf;
    TickWrites(c, sym, w, e);
  }

  // ----- safety of whole runs -----

  /** A run: consecutive worlds linked by steps, under one monotone clock, with ids
      never used before. */
  ghost predicate Run(c: Config, sym: string, ws: seq<World>, acts: seq<Action>, clock: seq<int>) {
    && |ws| == |acts| + 1 && |clock| == |ws|
    && (forall k :: 0 <= k < |acts| ==> Step(c, sym, ws[k], acts[k], ws[k + 1]))
    && (forall k :: 0 <= k < |acts| ==> Timely(ws[k], acts[k], clock[k], clock[k + 1]))
  }

  predicate Timely(w: World, act: Action, now: int, next: int) {
    if act.Signal? then
      && act.e.freshId !in w.book.table
      && now <= act.e.t0 <= act.e.t1 <= act.e.t2 <= next
    else now <= next
  }

  predicate IsBadResume(c: Config, sym: string, w: World, act: Action) {
    act.Signal? && BadResume(c, sym, w, act.e)
  }

  lemma StepKeepsBook(c: Config, sym: string, w: World, act: Action, w': World, now: int, next: int)
    requires Step(c, sym, w, act, w') && Timely(w, act, now, next)
    requires Sound(c.intervalMs, now, w.book)
    ensures Sound(c.intervalMs, next, w'.book)
    ensures !act.Signal? ==> w'.book == w.book
  {
    hide Tick, LoadedFrom;
    match act {
      case Signal(e) =>
        TickSound(c, now, sym, w, e);
      case Restart =>
        ReloadIsExact(w.book, w'.book.open);
      case _ =>
    }
  }

  /** Over every run the book is a faithful, balanced cache. */
  lemma {:induction false} RunKeepsBook(c: Config, sym: string, ws: seq<World>, acts: seq<Action>,
                                        clock: seq<int>, k: nat)
    requires Run(c, sym, ws, acts, clock) && k < |ws|
    requires Sound(c.intervalMs, clock[0], ws[0].book)
    ensures Sound(c.intervalMs, clock[k], ws[k].book)
    decreases k
  {
    hide Sound, Step, Timely;
    if k > 0 {
      RunKeepsBook(c, sym, ws, acts, clock, k - 1);
      StepKeepsBook(c, sym, ws[k - 1], acts[k - 1], ws[k], clock[k - 1], clock[k]);
    }
  }

  lemma StepMatches(c: Config, sym: string, w: World, act: Action, w': World, now: int, next: int)
    requires Step(c, sym, w, act, w') && Timely(w, act, now, next)
    requires Sound(c.intervalMs, now, w.book) && Matches(sym, w)
    ensures Matches(sym, w') <==> !IsBadResume(c, sym, w, act)
  {
    hide Tick, Sound, LoadedFrom;
    StepKeepsBook(c, sym, w, act, w', now, next);
    if act.Signal? {
      TickMatches(c, sym, w, act.e);
    }
  }

  /** Over every run, whatever orders fail, the persisted state tells the exposure at
      every point, if and only if no failed rollback is ever resumed with success. */
  lemma {:induction false} RunMatches(c: Config, sym: string, ws: seq<World>, acts: seq<Action>,
                                      clock: seq<int>, n: nat)
    requires Run(c, sym, ws, acts, clock) && n < |ws|
    requires Sound(c.intervalMs, clock[0], ws[0].book) && Matches(sym, ws[0])
    ensures (forall k :: 0 <= k <= n ==> Matches(sym, ws[k]))
            <==> (forall k :: 0 <= k < n ==> !IsBadResume(c, sym, ws[k], acts[k]))
    decreases n
  {
    hide Matches, IsBadResume, Sound, Step, Timely;
    if n > 0 {
      RunMatches(c, sym, ws, acts, clock, n - 1);
      RunKeepsBook(c, sym, ws, acts, clock, n - 1);
      if Matches(sym, ws[n - 1]) {
        StepMatches(c, sym, ws[n - 1], acts[n - 1], ws[n], clock[n - 1], clock[n]);
      }
    }
  }

  lemma SoundIsProper(interval: int, now: int, sym: string, w: World)
    requires Sound(interval, now, w.book)
    ensures Proper(sym, w)
  {
    hide RowOf;
  }

  /** Over every run, resumed rollbacks included: once nothing is half-entered nothing ever is,
      and a tick that leaves a record in UNWINDING_PERP changed nothing under HALT or is the
      one whose refused buy-back trips it. */
  lemma {:induction false} RunEnds(c: Config, sym: string, ws: seq<World>, acts: seq<Action>, clock: seq<int>, k: nat)
    requires Run(c, sym, ws, acts, clock) && k < |ws| && c.enabled
    requires Sound(c.intervalMs, clock[0], ws[0].book)
    ensures Proper(sym, ws[k]) && (Settled(sym, ws[0]) ==> Settled(sym, ws[k]))
    ensures k > 0 && acts[k - 1].Signal? && sym in ws[k].book.open && ws[k].book.open[sym].state.UnwindingPerp? ==>
              ws[k].halt && (ws[k] == ws[k - 1] || acts[k - 1].e.perpBuy.None?)
    decreases k
  {
    hide Sound, Timely, Tick, LoadedFrom, Proper, Settled;
    RunKeepsBook(c, sym, ws, acts, clock, k);
    SoundIsProper(c.intervalMs, clock[k], sym, ws[k]);
    if k > 0 {
      RunEnds(c, sym, ws, acts, clock, k - 1);
      RunKeepsBook(c, sym, ws, acts, clock, k - 1);
      StepKeepsBook(c, sym, ws[k - 1], acts[k - 1], ws[k], clock[k - 1], clock[k]);
      if acts[k - 1].Signal? {
        TickEnds(c, sym, ws[k - 1], acts[k - 1].e);
      } else {
        SameBookSettled(sym, ws[k - 1], ws[k]);
      }
    }
  }

  lemma SameBookSettled(sym: string, w: World, w': World)
    requires w'.book == w.book
    ensures Settled(sym, w') <==> Settled(sym, w)
  {
  }

  const NO_BOOK := BookView(map[], map[], [])

  /** The exception is reachable from nothing: a spot leg refused, a rollback refused,
      HALT cleared, and the next tick sells a spot leg that was never bought. */
  lemma FailedRollbackOversells(c: Config, sym: string, e1: Replies, e2: Replies)
    requires c.enabled && c.minFundingToEnter <= 1.0 && c.maxEntryBasis >= 0.0
    requires c.notional == 100.0 && c.qtyStep == 0.0
    requires e1.funding == Some(1.0) && e1.basisPerp == Some(100.0) && e1.basisSpot == Some(100.0)
    requires e1.sizeMark == Some(100.0) && e1.perpSell.Some? && e1.spotBuy.None? && e1.perpBuy.None?
    requires e2.perpBuy.Some? && e2.exitMark.Some? && e2.spotSell.Some?
    ensures
      var w0 := World(NO_BOOK, false, 0.0, 0.0);
      var w1 := Tick(c, sym, w0, e1);
      var w3 := Tick(c, sym, w1.(halt := false), e2);
      && Matches(sym, w0) && Matches(sym, w1) && w1.halt && w1.perp == -1.0 && w1.spot == 0.0
      && w3.book.open == map[] && w3.perp == 0.0 && w3.spot == -1.0
  {
  }

  // ===== 4. What a closed hedge earned =====

  /** Funding plus quantity times the change of the (absolute) basis, less fees. */
  lemma RealizedIsCarry(a: ArbRecord, perpExit: real, spotExit: real)
    requires a.perpQty == a.spotQty
    ensures Realized(a, perpExit, spotExit) ==
            a.accruedFunding
            + a.perpQty * ((a.perpEntryPrice - a.spotEntryPrice) - (perpExit - spotExit))
            - a.entryFees
  {
  }

  /** The level at which both legs are closed does not matter. */
  lemma CarryIgnoresPriceLevel(a: ArbRecord, perpExit: real, spotExit: real, shift: real)
    requires a.perpQty == a.spotQty
    ensures Realized(a, perpExit + shift, spotExit + shift) == Realized(a, perpExit, spotExit)
  {
  }

  predicate PaidOut(b: BookView, a: ArbRecord, e: Replies) {
    && a.arbId in b.table && b.table[a.arbId].state.Closed? && e.exitMark.Some? && e.spotSell.Some?
    && var r := FromDict(b.table[a.arbId].snapshot);
       var perpExit := e.exitMark.value;
       var spotExit := SpotExit(e.spotSell.value, perpExit);
       r.Some? && r.value.accruedFunding == a.accruedFunding
       && r.value.realizedPnl ==
          a.accruedFunding
          + a.perpQty * ((a.perpEntryPrice - a.spotEntryPrice) - (perpExit - spotExit))
          - a.entryFees
  }

  lemma SellSpotPays(w: World, a: ArbRecord, reason: string, e: Replies)
    requires Held(w.book, a) && a.perpQty == a.spotQty
    requires a.symbol !in SellSpot(w, a, reason, e).book.open
    ensures PaidOut(SellSpot(w, a, reason, e).book, a, e)
  {
    hide ToDict, FromDict, Realized, SpotExit;
    var perpExit := e.exitMark.value;
    var spotExit := SpotExit(e.spotSell.value, perpExit);
    RealizedIsCarry(a, perpExit, spotExit);
    DictRoundTrip(Settle(a, reason, Realized(a, perpExit, spotExit), e.t2));
  }

  /** Whenever unwinding takes the record off the book, the persisted row carries that sum. */
  lemma UnwindPays(w: World, a: ArbRecord, reason: string, e: Replies)
    requires Held(w.book, a) && a.perpQty == a.spotQty
    requires a.symbol !in Unwind(w, a, reason, e).book.open
    ensures PaidOut(Unwind(w, a, reason, e).book, a, e)
  {
    hide RowOf, SellSpot, PaidOut;
    if a.state.Hedged? || a.state.UnwindingPerp? {
      var a', a'' := a.(state := UnwindingPerp), a.(state := UnwindingSpot);
      var b := Put(Put(w.book, a', Lifecycle(a.arbId, "ARB_LEG_UNWOUND")), a'', Lifecycle(a.arbId, "ARB_LEG_UNWOUND"));
      var w' := w.(book := b, perp := w.perp + a.perpQty);
      SellSpotPays(w', a'', reason, e);
      SamePayout(SellSpot(w', a'', reason, e).book, a'', a, e);
    } else {
      SellSpotPays(w, a, reason, e);
    }
  }

  lemma SamePayout(b: BookView, a: ArbRecord, a': ArbRecord, e: Replies)
    requires PaidOut(b, a, e) && a' == a.(state := a'.state)
    ensures PaidOut(b, a', e)
  {
  }

  // ===== 5. When a hedge is opened and when it is left =====

  lemma FloorFits(x: real, step: real, n: int)
    requires step > 0.0 && n == (x / step).Floor
    ensures n as real * step <= x < n as real * step + step
  {
    var q := x / step;
    var f := n as real;
    assert q * step == x && f <= q < f + 1.0;
    Scaled(f, q, step);
    var next := f + 1.0;
    Scaled(q, next, step);
    assert x < next * step;
    assert next * step == f * step + step;
  }

  lemma Scaled(a: real, b: real, step: real)
    requires step > 0.0
    ensures a <= b <==> a * step <= b * step
    ensures a < b <==> a * step < b * step
  {
  }

  /** The legs are the most steps whose value at the mark stays within the notional. */
  lemma LegsFillNotional(c: Config, mark: real) returns (n: int)
    requires c.notional > 0.0 && mark > 0.0 && c.qtyStep > 0.0
    ensures SizeLegs(c, mark) == n as real * c.qtyStep
    ensures SizeLegs(c, mark) * mark <= c.notional < (SizeLegs(c, mark) + c.qtyStep) * mark
  {
    var x := c.notional / mark;
    n := (x / c.qtyStep).Floor;
    FloorFits(x, c.qtyStep, n);
    assert x * mark == c.notional;
    var s := SizeLegs(c, mark);
    assert s <= x ==> s * mark <= x * mark;
    assert x < s + c.qtyStep ==> x * mark < (s + c.qtyStep) * mark;
  }

  /** Without a step the legs are worth the notional exactly; without a notional or a mark there
      are none. */
  lemma LegsOtherwise(c: Config, mark: real)
    ensures c.notional <= 0.0 || mark <= 0.0 ==> SizeLegs(c, mark) == 0.0
    ensures c.notional > 0.0 && mark > 0.0 && c.qtyStep <= 0.0 ==> SizeLegs(c, mark) * mark == c.notional
  {
  }

  /** The premium of the perp over the spot; a spot mark that is not positive counts as none. */
  function Premium(perp: real, spot: real): real {
    if spot <= 0.0 then 0.0 else (perp - spot) / spot
  }

  /** Orders permitting, a hedge is opened exactly on rich funding, a tight basis and a
      size of at least one step. */
  lemma OpensIff(c: Config, sym: string, w: World, e: Replies)
    requires c.enabled && !w.halt && sym !in w.book.open
    requires e.funding.Some? && e.basisPerp.Some? && e.basisSpot.Some?
    requires e.sizeMark.Some? && e.perpSell.Some? && e.spotBuy.Some?
    ensures
      var w' := Tick(c, sym, w, e);
      var premium := Premium(e.basisPerp.value, e.basisSpot.value);
      && (sym in w'.book.open <==>
            && e.funding.value >= c.minFundingToEnter
            && -c.maxEntryBasis <= premium <= c.maxEntryBasis
            && SizeLegs(c, e.sizeMark.value) > 0.0)
      && (sym in w'.book.open ==>
            && w'.book.open[sym].state.Hedged?
            && w'.perp - w.perp == -SizeLegs(c, e.sizeMark.value)
            && w'.spot - w.spot == SizeLegs(c, e.sizeMark.value))
      && (sym !in w'.book.open ==> w' == w)
  {
    hide RowOf, SizeLegs;
  }

  /** The record of an entry attempt, as far as the two orders got. */
  function Attempt(c: Config, sym: string, e: Replies, state: ArbState): ArbRecord
    requires e.sizeMark.Some? && e.basisPerp.Some? && e.basisSpot.Some?
  {
    var qty := SizeLegs(c, e.sizeMark.value);
    ArbRecord(e.freshId, sym, state, qty, qty,
              if e.perpSell.Some? && e.spotBuy.Some? then e.spotBuy.value.price else 0.0,
              if e.perpSell.Some? then e.perpSell.value.price else 0.0,
              Premium(e.basisPerp.value, e.basisSpot.value), 0.0, 0, 0.0,
              if e.perpSell.Some? && e.spotBuy.Some? then e.spotBuy.value.orderId else "",
              if e.perpSell.Some? then e.perpSell.value.orderId else "", "", e.t0, e.t1, None, None, 0.0)
  }

  /** Nothing is left on the book but a row of the closed record. */
  predicate EndsFlat(w: World, w': World, r: ArbRecord) {
    && w'.perp == w.perp && w'.spot == w.spot && w'.halt == w.halt && w'.book.open == w.book.open
    && w'.book.table == w.book.table[r.arbId := RowOf(r)]
  }

  /** The record is on the book with its row, the perp leg is on, and the spot leg is or is not. */
  predicate EndsOpen(w: World, w': World, sym: string, r: ArbRecord, spot: real) {
    && w'.perp == w.perp - r.perpQty && w'.spot == w.spot + spot
    && w'.book.open == w.book.open[sym := r] && w'.book.table == w.book.table[r.arbId := RowOf(r)]
  }

  lemma PlaceEndsFlat(w: World, a: ArbRecord, e: Replies)
    requires a.symbol !in w.book.open && !a.state.Closed?
    ensures e.perpSell.None? ==> EndsFlat(w, PlacePerp(w, a, e), a.(state := Closed))
    ensures e.perpSell.Some? && e.spotBuy.None? && e.perpBuy.Some? ==>
      var f := e.perpSell.value;
      EndsFlat(w, PlacePerp(w, a, e),
               a.(state := Closed, perpEntryPrice := f.price, perpOrderId := f.orderId,
                  closeReason := Some("entry_rolled_back"), closeTime := Some(e.t2), realizedPnl := 0.0))
  {
    hide RowOf;
  }

  lemma PlaceEndsOpen(w: World, a: ArbRecord, e: Replies)
    requires a.symbol !in w.book.open && e.perpSell.Some?
    ensures e.spotBuy.Some? ==>
      var f, g := e.perpSell.value, e.spotBuy.value;
      PlacePerp(w, a, e).halt == w.halt
      && EndsOpen(w, PlacePerp(w, a, e), a.symbol,
                  a.(state := Hedged, perpEntryPrice := f.price, perpOrderId := f.orderId,
                     spotEntryPrice := g.price, spotOrderId := g.orderId), a.spotQty)
    ensures e.spotBuy.None? && e.perpBuy.None? ==>
      var f := e.perpSell.value;
      PlacePerp(w, a, e).halt
      && EndsOpen(w, PlacePerp(w, a, e), a.symbol,
                  a.(state := UnwindingPerp, perpEntryPrice := f.price, perpOrderId := f.orderId), 0.0)
  {
    hide RowOf;
  }

  /** The four ends of an attempt: refused and flat, hedged, rolled back and flat, or stuck short
      under HALT; and the record that each leaves behind. */
  lemma EntryOutcomes(c: Config, sym: string, w: World, e: Replies)
    requires c.enabled && !w.halt && sym !in w.book.open
    requires e.funding.Some? && e.basisPerp.Some? && e.basisSpot.Some? && e.sizeMark.Some?
    requires EntryCondition(c, e.funding.value, Basis(e).value) && SizeLegs(c, e.sizeMark.value) > 0.0
    ensures
      var w', qty := Tick(c, sym, w, e), SizeLegs(c, e.sizeMark.value);
      if e.perpSell.None? then EndsFlat(w, w', Attempt(c, sym, e, Closed))
      else if e.spotBuy.Some? then !w'.halt && EndsOpen(w, w', sym, Attempt(c, sym, e, Hedged), qty)
      else if e.perpBuy.Some? then
        EndsFlat(w, w', Attempt(c, sym, e, Closed).(closeReason := Some("entry_rolled_back"), closeTime := Some(e.t2)))
      else w'.halt && EndsOpen(w, w', sym, Attempt(c, sym, e, UnwindingPerp), 0.0)
  {
    hide SizeLegs, PlacePerp, EndsFlat, EndsOpen;
    var a := NewArb(sym, SizeLegs(c, e.sizeMark.value), Basis(e).value, e);
    PlaceEndsFlat(w, a, e);
    if e.perpSell.Some? { PlaceEndsOpen(w, a, e); }
  }

  /** What an entry attempt journals. */
  lemma EntryJournal(c: Config, sym: string, w: World, e: Replies)
    requires c.enabled && !w.halt && sym !in w.book.open
    requires e.funding.Some? && e.basisPerp.Some? && e.basisSpot.Some? && e.sizeMark.Some?
    requires EntryCondition(c, e.funding.value, Basis(e).value) && SizeLegs(c, e.sizeMark.value) > 0.0
    ensures
      var id, begun := e.freshId, ["ARB_OPENING", "ARB_PERP_LEG_FILLED"];
      Tick(c, sym, w, e).book.journal == w.book.journal + Told(id,
        if e.perpSell.None? then ["ARB_ENTRY_ROLLED_BACK"]
        else if e.spotBuy.Some? then begun + ["ARB_OPENED"]
        else if e.perpBuy.Some? then begun + ["ARB_LEG_UNWOUND", "ARB_ENTRY_ROLLED_BACK", "ARB_CLOSED"]
        else begun + ["ARB_LEG_UNWOUND"])
  {
    hide RowOf, SizeLegs;
  }

  function Told(id: string, names: seq<string>): seq<Event> {
    seq(|names|, k requires 0 <= k < |names| => Lifecycle(id, names[k]))
  }

  /** What unwinding a hedge journals: the leg begun, the leg done, the close. */
  lemma UnwindJournal(w: World, a: ArbRecord, reason: string, e: Replies)
    ensures
      var perp := a.state.Hedged? || a.state.UnwindingPerp?;
      var sold := e.exitMark.Some? && e.spotSell.Some?;
      Unwind(w, a, reason, e).book.journal == w.book.journal + Told(a.arbId,
        (if !perp then [] else if e.perpBuy.None? then ["ARB_LEG_UNWOUND"]
         else ["ARB_LEG_UNWOUND", "ARB_LEG_UNWOUND"])
        + if sold && (perp ==> e.perpBuy.Some?) then ["ARB_CLOSED"] else [])
  {
    hide RowOf, Realized, SpotExit;
  }

  lemma ExitIff(c: Config, a: ArbRecord, fr: real, e: Replies)
    requires e.basisPerp.Some? && e.basisSpot.Some?
    ensures
      var drift := Premium(e.basisPerp.value, e.basisSpot.value) - a.entryBasis;
      EvaluateExit(c, a, fr, e).Leave? <==>
        fr <= c.exitFloor || fr < c.minFundingToHold || drift > c.maxBasisDrift || drift < -c.maxBasisDrift
  {
  }

  /** Orders permitting, a hedge is left exactly when funding has flipped or decayed or the
      basis has drifted too far from the entry basis; before that, it is paid its funding
      exactly when an interval has passed. */
  lemma LeavesIff(c: Config, sym: string, w: World, e: Replies)
    requires c.enabled && !w.halt && sym in w.book.open
    requires w.book.open[sym].state.Hedged? && w.book.open[sym].symbol == sym
    requires e.funding.Some? && e.sizeMark.Some? && e.basisPerp.Some? && e.basisSpot.Some?
    requires e.perpBuy.Some? && e.exitMark.Some? && e.spotSell.Some?
    ensures
      var a, w' := w.book.open[sym], Tick(c, sym, w, e);
      var drift := Premium(e.basisPerp.value, e.basisSpot.value) - a.entryBasis;
      && (sym !in w'.book.open <==>
            || e.funding.value <= c.exitFloor || e.funding.value < c.minFundingToHold
            || drift > c.maxBasisDrift || drift < -c.maxBasisDrift)
      && (sym in w'.book.open ==>
            && (w'.perp, w'.spot) == (w.perp, w.spot)
            && (if e.t0 - a.lastFundingTs >= c.intervalMs
                then w'.book.open[sym] ==
                     a.(accruedFunding := a.accruedFunding + a.perpQty * e.sizeMark.value * e.funding.value,
                        fundingPayments := a.fundingPayments + 1, lastFundingTs := e.t1)
                else w' == w))
      && (sym !in w'.book.open ==> w'.perp == w.perp + a.perpQty && w'.spot == w.spot - a.spotQty)
  {
    hide RowOf, Realized, SpotExit, PerpNotional, Payment, EvaluateExit, Premium, Unwind;
    var a := w.book.open[sym];
    PaymentWritten(a, e.sizeMark.value, e.funding.value, e.t1);
    var a' := if FundingDue(c, a, e)
              then Accrue(a, Payment(PerpNotional(a, e.sizeMark.value), e.funding.value), e.t1) else a;
    ExitIff(c, a', e.funding.value, e);
    UnwindSells(w, a, EvaluateExit(c, a', e.funding.value, e), e);
    if FundingDue(c, a, e) {
      var ev := FundingAccrued(a.arbId, e.funding.value, PerpNotional(a, e.sizeMark.value),
                               Payment(PerpNotional(a, e.sizeMark.value), e.funding.value));
      UnwindSells(w.(book := Put(w.book, a', ev)), a', EvaluateExit(c, a', e.funding.value, e), e);
    }
  }

  /** What accruing a payment makes of the record, written out. */
  lemma PaymentWritten(a: ArbRecord, mark: real, rate: real, ts: int)
    ensures PerpNotional(a, mark) == a.perpQty * mark
    ensures Payment(PerpNotional(a, mark), rate) == a.perpQty * mark * rate
    ensures Accrue(a, Payment(PerpNotional(a, mark), rate), ts) ==
            a.(accruedFunding := a.accruedFunding + a.perpQty * mark * rate,
               fundingPayments := a.fundingPayments + 1, lastFundingTs := ts)
  {
  }

  /** With both orders accepted, unwinding a hedge closes it and both legs. */
  lemma UnwindSells(w: World, a: ArbRecord, v: Verdict, e: Replies)
    requires a.state.Hedged? && e.perpBuy.Some? && e.exitMark.Some? && e.spotSell.Some?
    ensures v.Leave? ==>
      var w' := Unwind(w, a, v.reason, e);
      a.symbol !in w'.book.open && w'.perp == w.perp + a.perpQty && w'.spot == w.spot - a.spotQty
  {
    hide RowOf, Realized, SpotExit;
  }
}
