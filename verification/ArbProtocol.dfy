/** The two-leg funding-arbitrage protocol as a function: what one tick does to the
    book, the HALT flag and the two venues, for any replies of the world around it. */
module ArbProtocol {
  import opened Wrappers
  import opened ArbRecords

  // ----- the book -----

  /** A row of the positions table. */
  datatype Row = Row(symbol: string, state: ArbState, snapshot: Dict)

  datatype Event =
    | Lifecycle(arbId: string, kind: string)
    | FundingAccrued(arbId: string, rate: real, perpNotional: real, amount: real)

  datatype BookView = BookView(open: map<string, ArbRecord>, table: map<string, Row>, journal: seq<Event>)

  function RowOf(a: ArbRecord): Row {
    Row(a.symbol, a.state, ToDict(a))
  }

  /** Remember the record if it is open, journal the event, persist the snapshot. */
  function Put(b: BookView, a: ArbRecord, e: Event): BookView {
    BookView(
      if a.state.Closed? then b.open - {a.symbol} else b.open[a.symbol := a],
      b.table[a.arbId := RowOf(a)],
      b.journal + [e])
  }

  function Accrue(a: ArbRecord, amount: real, ts: int): ArbRecord {
    a.(accruedFunding := a.accruedFunding + amount, fundingPayments := a.fundingPayments + 1, lastFundingTs := ts)
  }

  function Settle(a: ArbRecord, reason: string, pnl: real, ts: int): ArbRecord {
    a.(state := Closed, closeReason := Some(reason), closeTime := Some(ts), realizedPnl := pnl)
  }

  // ----- restart: the open map is rebuilt from the rows that are not CLOSED -----

  function WithRow(m: map<string, ArbRecord>, row: Row): map<string, ArbRecord> {
    var a := FromDict(row.snapshot);
    if !row.state.Closed? && a.Some? then m[a.value.symbol := a.value] else m
  }

  /** The row is selected by a restart and reads back as a. */
  predicate Loads(row: Row, a: ArbRecord) {
    !row.state.Closed? && FromDict(row.snapshot) == Some(a)
  }

  /** Every loaded record is that of some selected row, and no row seen was passed over. */
  ghost predicate LoadedSoFar(open: map<string, ArbRecord>, table: map<string, Row>, unseen: set<string>) {
    && (forall s :: s in open ==> open[s].symbol == s && exists id :: id in table && Loads(table[id], open[s]))
    && (forall id, a :: id in table && id !in unseen && Loads(table[id], a) ==> a.symbol in open)
  }

  lemma EmptyLoad(table: map<string, Row>)
    ensures LoadedSoFar(map[], table, table.Keys)
  {
  }

  lemma LoadStep(open: map<string, ArbRecord>, table: map<string, Row>, unseen: set<string>, id: string)
    requires id in table && LoadedSoFar(open, table, unseen)
    ensures LoadedSoFar(WithRow(open, table[id]), table, unseen - {id})
  {
    hide FromDict;
    var a := FromDict(table[id].snapshot);
    if !table[id].state.Closed? && a.Some? {
      assert Loads(table[id], a.value);
    }
  }

  ghost predicate LoadedFrom(open: map<string, ArbRecord>, table: map<string, Row>) {
    LoadedSoFar(open, table, {})
  }

  // ----- configuration and replies -----

  datatype Config = Config(
    enabled: bool, minFundingToEnter: real, maxEntryBasis: real, notional: real, qtyStep: real,
    intervalMs: int, exitFloor: real, minFundingToHold: real, maxBasisDrift: real)

  /** An accepted order; a missing average price reads as 0. */
  datatype Fill = Fill(price: real, orderId: string)

  /** Everything one tick may ask for.  None is a call that raises. */
  datatype Replies = Replies(
    freshId: string,
    t0: int, t1: int, t2: int,
    funding: Option<real>,
    basisPerp: Option<real>, basisSpot: Option<real>,
    sizeMark: Option<real>, exitMark: Option<real>,
    perpSell: Option<Fill>, perpBuy: Option<Fill>,
    spotBuy: Option<Fill>, spotSell: Option<Fill>)

  datatype World = World(book: BookView, halt: bool, perp: real, spot: real)

  // ----- decisions -----

  function Abs(x: real): real {
    if x < 0.0 then -x else x
  }

  function Basis(e: Replies): Option<real> {
    if e.basisPerp.None? || e.basisSpot.None? then None
    else if e.basisSpot.value <= 0.0 then Some(0.0)
    else Some((e.basisPerp.value - e.basisSpot.value) / e.basisSpot.value)
  }

  predicate EntryCondition(c: Config, fr: real, basis: real) {
    fr >= c.minFundingToEnter && Abs(basis) <= c.maxEntryBasis
  }

  /** Notional over mark, rounded down to the common step. */
  function SizeLegs(c: Config, mark: real): real {
    if c.notional <= 0.0 || mark <= 0.0 then 0.0
    else
      var qty := c.notional / mark;
      if c.qtyStep > 0.0 then (qty / c.qtyStep).Floor as real * c.qtyStep else qty
  }

  datatype Verdict = Stay | Leave(reason: string) | Raises

  function EvaluateExit(c: Config, a: ArbRecord, fr: real, e: Replies): Verdict {
    if fr <= c.exitFloor then Leave("funding_flip")
    else if fr < c.minFundingToHold then Leave("funding_decay")
    else if Basis(e).None? then Raises
    else if Abs(Basis(e).value - a.entryBasis) > c.maxBasisDrift then Leave("basis_drift")
    else Stay
  }

  // ----- entry -----

  function NewArb(sym: string, qty: real, basis: real, e: Replies): ArbRecord {
    ArbRecord(e.freshId, sym, PlacingPerp, qty, qty, 0.0, 0.0, basis, 0.0, 0, 0.0, "", "", "",
              e.t0, e.t1, None, None, 0.0)
  }

  function Enter(c: Config, sym: string, w: World, e: Replies): World {
    if e.funding.None? || Basis(e).None? then w
    else if !EntryCondition(c, e.funding.value, Basis(e).value) || e.sizeMark.None? then w
    else if SizeLegs(c, e.sizeMark.value) <= 0.0 then w
    else PlacePerp(w, NewArb(sym, SizeLegs(c, e.sizeMark.value), Basis(e).value, e), e)
  }

  function PlacePerp(w: World, a: ArbRecord, e: Replies): World {
    if e.perpSell.None? then
      w.(book := Put(w.book, a.(state := Closed), Lifecycle(a.arbId, "ARB_ENTRY_ROLLED_BACK")))
    else
      var a' := a.(perpEntryPrice := e.perpSell.value.price, perpOrderId := e.perpSell.value.orderId,
                   state := PerpOnly);
      var b := Put(Put(w.book, a', Lifecycle(a.arbId, "ARB_OPENING")), a', Lifecycle(a.arbId, "ARB_PERP_LEG_FILLED"));
      CompleteSpot(w.(book := b, perp := w.perp - a.perpQty), a', e)
  }

  /** Buy the spot leg, or give the perp leg back. */
  function CompleteSpot(w: World, a: ArbRecord, e: Replies): World {
    if e.spotBuy.None? then Rollback(w, a, e)
    else
      var a' := a.(spotEntryPrice := e.spotBuy.value.price, spotOrderId := e.spotBuy.value.orderId, state := Hedged);
      w.(book := Put(w.book, a', Lifecycle(a.arbId, "ARB_OPENED")), spot := w.spot + a.spotQty)
  }

  function Rollback(w: World, a: ArbRecord, e: Replies): World {
    var a' := a.(state := UnwindingPerp);
    var b := Put(w.book, a', Lifecycle(a.arbId, "ARB_LEG_UNWOUND"));
    if e.perpBuy.None? then w.(book := b, halt := true)
    else
      var b' := Put(b, a', Lifecycle(a.arbId, "ARB_ENTRY_ROLLED_BACK"));
      w.(book := Put(b', Settle(a', "entry_rolled_back", 0.0, e.t2), Lifecycle(a.arbId, "ARB_CLOSED")),
         perp := w.perp + a.perpQty)
  }

  // ----- holding -----

  predicate FundingDue(c: Config, a: ArbRecord, e: Replies) {
    e.t0 - a.lastFundingTs >= c.intervalMs
  }

  function PerpNotional(a: ArbRecord, mark: real): real {
    a.perpQty * mark
  }

  /** The short perp receives funding when the rate is positive. */
  function Payment(notional: real, rate: real): real {
    notional * rate
  }

  function Manage(c: Config, w: World, a: ArbRecord, e: Replies): World {
    if e.funding.None? then w
    else if !FundingDue(c, a, e) then ExitIfDue(c, w, a, e)
    else if e.sizeMark.None? then w
    else
      var fr, notional := e.funding.value, PerpNotional(a, e.sizeMark.value);
      var a' := Accrue(a, Payment(notional, fr), e.t1);
      ExitIfDue(c, w.(book := Put(w.book, a', FundingAccrued(a.arbId, fr, notional, Payment(notional, fr)))), a', e)
  }

  function ExitIfDue(c: Config, w: World, a: ArbRecord, e: Replies): World
    requires e.funding.Some?
  {
    var v := EvaluateExit(c, a, e.funding.value, e);
    if v.Leave? then Unwind(w, a, v.reason, e) else w
  }

  // ----- unwinding -----

  function Unwind(w: World, a: ArbRecord, reason: string, e: Replies): World {
    if a.state.Hedged? || a.state.UnwindingPerp? then
      var a' := a.(state := UnwindingPerp);
      var b := Put(w.book, a', Lifecycle(a.arbId, "ARB_LEG_UNWOUND"));
      if e.perpBuy.None? then w.(book := b, halt := true)
      else
        var a'' := a.(state := UnwindingSpot);
        SellSpot(w.(book := Put(b, a'', Lifecycle(a.arbId, "ARB_LEG_UNWOUND")), perp := w.perp + a.perpQty),
                 a'', reason, e)
    else SellSpot(w, a, reason, e)
  }

  function SpotExit(fill: Fill, perpExit: real): real {
    if fill.price == 0.0 then perpExit else fill.price
  }

  function Realized(a: ArbRecord, perpExit: real, spotExit: real): real {
    a.accruedFunding + (spotExit - a.spotEntryPrice) * a.spotQty + (a.perpEntryPrice - perpExit) * a.perpQty
    - a.entryFees
  }

  function SellSpot(w: World, a: ArbRecord, reason: string, e: Replies): World {
    if e.exitMark.None? || e.spotSell.None? then w
    else
      var pnl := Realized(a, e.exitMark.value, SpotExit(e.spotSell.value, e.exitMark.value));
      w.(book := Put(w.book, Settle(a, reason, pnl, e.t2), Lifecycle(a.arbId, "ARB_CLOSED")),
         spot := w.spot - a.spotQty)
  }

  // ----- recovery and the tick -----

  function ResumeReason(a: ArbRecord): string {
    if a.closeReason.None? || a.closeReason.value == "" then "resume_unwind" else a.closeReason.value
  }

  function Resolve(w: World, a: ArbRecord, e: Replies): World {
    match a.state
    case PerpOnly => CompleteSpot(w, a, e)
    case UnwindingPerp => Unwind(w, a, ResumeReason(a), e)
    case UnwindingSpot => Unwind(w, a, ResumeReason(a), e)
    case PlacingPerp =>
      w.(book := Put(w.book, Settle(a, "abandoned_placing", 0.0, e.t2), Lifecycle(a.arbId, "ARB_CLOSED")))
    case _ => w
  }

  function Tick(c: Config, sym: string, w: World, e: Replies): World {
    if !c.enabled then w
    else if sym !in w.book.open then if w.halt then w else Enter(c, sym, w, e)
    else
      var a := w.book.open[sym];
      if w.halt then if a.state.Hedged? then Unwind(w, a, "halt", e) else w
      else if a.state.Hedged? then Manage(c, w, a, e)
      else Resolve(w, a, e)
  }
}
