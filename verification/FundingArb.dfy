/** The funding-arbitrage manager and its book, updating shared records in place.  Every
    method leaves the world as ArbProtocol says. */
module FundingArb {
  import opened Wrappers
  import opened ArbRecords
  import opened ArbProtocol

  class ArbPosition {
    const arbId: string
    const symbol: string
    var state: ArbState
    var spotQty: real
    var perpQty: real
    var spotEntryPrice: real
    var perpEntryPrice: real
    var entryBasis: real
    var accruedFunding: real
    var fundingPayments: int
    var entryFees: real
    var spotOrderId: string
    var perpOrderId: string
    var perpPositionId: string
    var openTime: int
    var lastFundingTs: int
    var closeTime: Option<int>
    var closeReason: Option<string>
    var realizedPnl: real

    function View(): ArbRecord
      reads this
    {
      ArbRecord(arbId, symbol, state, spotQty, perpQty, spotEntryPrice, perpEntryPrice, entryBasis,
                accruedFunding, fundingPayments, entryFees, spotOrderId, perpOrderId, perpPositionId,
                openTime, lastFundingTs, closeTime, closeReason, realizedPnl)
    }

    lemma Fields()
      ensures View().symbol == symbol && View().arbId == arbId && View().state == state
      ensures View().perpQty == perpQty && View().spotQty == spotQty
    {
    }

    constructor (a: ArbRecord)
      ensures View() == a
    {
      arbId, symbol, state := a.arbId, a.symbol, a.state;
      spotQty, perpQty := a.spotQty, a.perpQty;
      spotEntryPrice, perpEntryPrice := a.spotEntryPrice, a.perpEntryPrice;
      entryBasis, accruedFunding := a.entryBasis, a.accruedFunding;
      fundingPayments, entryFees := a.fundingPayments, a.entryFees;
      spotOrderId, perpOrderId, perpPositionId := a.spotOrderId, a.perpOrderId, a.perpPositionId;
      openTime, lastFundingTs := a.openTime, a.lastFundingTs;
      closeTime, closeReason, realizedPnl := a.closeTime, a.closeReason, a.realizedPnl;
    }

    method SetState(s: ArbState)
      modifies this
      ensures View() == old(View()).(state := s)
    {
      state := s;
    }

    method FillPerp(fill: Fill)
      modifies this
      ensures View() == old(View()).(perpEntryPrice := fill.price, perpOrderId := fill.orderId, state := PerpOnly)
    {
      perpEntryPrice := fill.price;
      perpOrderId := fill.orderId;
      state := PerpOnly;
    }

    method FillSpot(fill: Fill)
      modifies this
      ensures View() == old(View()).(spotEntryPrice := fill.price, spotOrderId := fill.orderId, state := Hedged)
    {
      spotEntryPrice := fill.price;
      spotOrderId := fill.orderId;
      state := Hedged;
    }

    method AccrueFunding(amount: real, ts: int)
      modifies this
      ensures View() == Accrue(old(View()), amount, ts)
    {
      accruedFunding := accruedFunding + amount;
      fundingPayments := fundingPayments + 1;
      lastFundingTs := ts;
    }

    method MarkClosed(reason: string, pnl: real, ts: int)
      modifies this
      ensures View() == Settle(old(View()), reason, pnl, ts)
    {
      state := Closed;
      closeReason := Some(reason);
      closeTime := Some(ts);
      realizedPnl := pnl;
    }
  }

  /** The book as it looks once the open record of a's symbol, if there is one, reads a. */
  function With(b: BookView, a: ArbRecord): BookView {
    if a.symbol in b.open then b.(open := b.open[a.symbol := a]) else b
  }

  lemma PutAfterWith(b: BookView, a: ArbRecord, a': ArbRecord, e: Event)
    requires a.symbol == a'.symbol
    ensures Put(With(b, a), a', e) == Put(b, a', e)
  {
  }

  class ArbBook {
    var open: map<string, ArbPosition>
    var table: map<string, Row>
    var journal: seq<Event>

    ghost predicate Valid()
      reads this
    {
      forall s :: s in open ==> open[s].symbol == s
    }

    ghost function View(): BookView
      reads this, open.Values
    {
      BookView(map s | s in open :: open[s].View(), table, journal)
    }

    /** The record is the open one of its symbol, or its symbol has none. */
    ghost predicate Owns(arb: ArbPosition)
      reads this
    {
      arb.symbol in open ==> open[arb.symbol] == arb
    }

    /** Changing one record changes the book's view at its own symbol only. */
    twostate lemma OnlyItsEntry(arb: ArbPosition)
      requires old(Valid()) && old(Owns(arb)) && unchanged(this)
      requires forall s :: s in open && s != arb.symbol ==> open[s].View() == old(open[s].View())
      requires arb.View().symbol == arb.symbol
      ensures View() == With(old(View()), arb.View())
    {
      hide ArbPosition.View;
    }

    method Emit(e: Event)
      modifies this`journal
      ensures journal == old(journal) + [e]
    {
      journal := journal + [e];
    }

    method Snapshot(arb: ArbPosition)
      modifies this`table
      ensures table == old(table)[arb.arbId := RowOf(arb.View())]
    {
      table := table[arb.arbId := Row(arb.symbol, arb.state, ToDict(arb.View()))];
    }

    method OpenRecord(arb: ArbPosition)
      requires Valid() && !arb.state.Closed?
      modifies this
      ensures Valid() && open == old(open)[arb.symbol := arb]
      ensures View() == Put(old(View()), arb.View(), Lifecycle(arb.arbId, "ARB_OPENING"))
    {
      hide ArbPosition.View, RowOf;
      arb.Fields();
      open := open[arb.symbol := arb];
      Emit(Lifecycle(arb.arbId, "ARB_OPENING"));
      Snapshot(arb);
    }

    method Update(arb: ArbPosition, e: Event)
      requires Valid()
      modifies this
      ensures Valid()
      ensures open == if arb.state.Closed? then old(open) - {arb.symbol} else old(open)[arb.symbol := arb]
      ensures View() == Put(old(View()), arb.View(), e)
    {
      hide ArbPosition.View, RowOf;
      arb.Fields();
      if arb.state.Closed? {
        open := open - {arb.symbol};
        assert View().open == old(View()).open - {arb.symbol};
      } else {
        open := open[arb.symbol := arb];
        assert View().open == old(View()).open[arb.symbol := arb.View()];
      }
      Emit(e);
      Snapshot(arb);
    }

    /** Move a record to its next state and record the step. */
    method Advance(arb: ArbPosition, st: ArbState, e: Event)
      requires Valid() && Owns(arb) && !st.Closed?
      modifies this, arb
      ensures Valid() && open == old(open)[arb.symbol := arb]
      ensures arb.View() == old(arb.View()).(state := st)
      ensures View() == Put(old(View()), arb.View(), e)
    {
      arb.SetState(st);
      OnlyItsEntry(arb);
      PutAfterWith(old(View()), arb.View(), arb.View(), e);
      Update(arb, e);
    }

    /** A filled perp leg is opened on the book and journalled a second time as filled. */
    method RecordPerp(arb: ArbPosition, fill: Fill)
      requires Valid() && arb.symbol !in open
      modifies this, arb
      ensures Valid() && open == old(open)[arb.symbol := arb]
      ensures arb.View() ==
              old(arb.View()).(perpEntryPrice := fill.price, perpOrderId := fill.orderId, state := PerpOnly)
      ensures View() == Put(Put(old(View()), arb.View(), Lifecycle(arb.arbId, "ARB_OPENING")), arb.View(),
                            Lifecycle(arb.arbId, "ARB_PERP_LEG_FILLED"))
    {
      hide ArbPosition.View, Put, RowOf;
      arb.Fields();
      arb.FillPerp(fill);
      arb.Fields();
      OnlyItsEntry(arb);
      OpenRecord(arb);
      Update(arb, Lifecycle(arb.arbId, "ARB_PERP_LEG_FILLED"));
    }

    method RecordHedge(arb: ArbPosition, fill: Fill)
      requires Valid() && Owns(arb)
      modifies this, arb
      ensures Valid() && open == old(open)[arb.symbol := arb]
      ensures arb.View() == old(arb.View()).(spotEntryPrice := fill.price, spotOrderId := fill.orderId, state := Hedged)
      ensures View() == Put(old(View()), arb.View(), Lifecycle(arb.arbId, "ARB_OPENED"))
    {
      arb.FillSpot(fill);
      OnlyItsEntry(arb);
      PutAfterWith(old(View()), arb.View(), arb.View(), Lifecycle(arb.arbId, "ARB_OPENED"));
      Update(arb, Lifecycle(arb.arbId, "ARB_OPENED"));
    }

    method RecordFunding(arb: ArbPosition, rate: real, perpNotional: real, amount: real, ts: int)
      requires Valid() && Owns(arb) && !arb.state.Closed?
      modifies this, arb
      ensures Valid() && open == old(open)[arb.symbol := arb]
      ensures arb.View() == Accrue(old(arb.View()), amount, ts)
      ensures View() == Put(old(View()), arb.View(), FundingAccrued(arb.arbId, rate, perpNotional, amount))
    {
      arb.AccrueFunding(amount, ts);
      OnlyItsEntry(arb);
      PutAfterWith(old(View()), arb.View(), arb.View(), FundingAccrued(arb.arbId, rate, perpNotional, amount));
      Update(arb, FundingAccrued(arb.arbId, rate, perpNotional, amount));
    }

    method Close(arb: ArbPosition, reason: string, pnl: real, ts: int)
      requires Valid() && Owns(arb)
      modifies this, arb
      ensures Valid() && open == old(open) - {arb.symbol}
      ensures arb.View() == Settle(old(arb.View()), reason, pnl, ts)
      ensures View() == Put(old(View()), arb.View(), Lifecycle(arb.arbId, "ARB_CLOSED"))
    {
      arb.MarkClosed(reason, pnl, ts);
      OnlyItsEntry(arb);
      PutAfterWith(old(View()), arb.View(), arb.View(), Lifecycle(arb.arbId, "ARB_CLOSED"));
      Update(arb, Lifecycle(arb.arbId, "ARB_CLOSED"));
    }

    ghost predicate Shows(m: map<string, ArbRecord>)
      reads this, open.Values
    {
      m.Keys == open.Keys && forall s :: s in open ==> open[s].View() == m[s]
    }

    /** Rebuild one row; a CLOSED row is not selected, an unreadable one is skipped. */
    method LoadRow(row: Row, ghost m: map<string, ArbRecord>) returns (ghost m': map<string, ArbRecord>)
      requires Valid() && Shows(m)
      modifies this`open
      ensures Valid() && Shows(m')
      ensures m' == WithRow(m, row)
    {
      hide ArbPosition.View, FromDict;
      m' := m;
      var a := FromDict(row.snapshot);
      if !row.state.Closed? && a.Some? {
        var arb := new ArbPosition(a.value);
        arb.Fields();
        open := open[arb.symbol := arb];
        m' := m[arb.symbol := a.value];
      }
    }

    /** Rebuild the open map, taking the rows in whatever order the table yields them. */
    method LoadOpen()
      modifies this`open
      ensures Valid() && LoadedFrom(View().open, table)
      ensures table == old(table) && journal == old(journal)
    {
      hide ArbPosition.View, FromDict, LoadedSoFar, WithRow;
      open := map[];
      ghost var loaded: map<string, ArbRecord> := map[];
      EmptyLoad(table);
      var todo := table.Keys;
      while todo != {}
        invariant todo <= table.Keys
        invariant Valid() && Shows(loaded)
        invariant LoadedSoFar(loaded, table, todo)
      {
        var id :| id in todo;
        LoadStep(loaded, table, todo, id);
        loaded := LoadRow(table[id], loaded);
        todo := todo - {id};
      }
      assert View().open == loaded;
    }
  }

  /** A venue's net position in one symbol; an order that raises changes nothing. */
  class Venue {
    var position: real

    method Buy(qty: real, reply: Option<Fill>) returns (fill: Option<Fill>)
      modifies this
      ensures fill == reply
      ensures position == if reply.Some? then old(position) + qty else old(position)
    {
      if reply.Some? { position := position + qty; }
      fill := reply;
    }

    method Sell(qty: real, reply: Option<Fill>) returns (fill: Option<Fill>)
      modifies this
      ensures fill == reply
      ensures position == if reply.Some? then old(position) - qty else old(position)
    {
      if reply.Some? { position := position - qty; }
      fill := reply;
    }
  }

  class HaltFlag {
    var present: bool

    method Trip()
      modifies this
      ensures present
    {
      present := true;
    }

    method Clear() returns (existed: bool)
      modifies this
      ensures !present && existed == old(present)
    {
      existed := present;
      present := false;
    }
  }

  class FundingArbManager {
    const symbol: string
    const cfg: Config
    const book: ArbBook
    const perp: Venue
    const spot: Venue
    const halt: HaltFlag

    constructor (symbol: string, cfg: Config, book: ArbBook, perp: Venue, spot: Venue, halt: HaltFlag)
      requires perp != spot && book.Valid()
      ensures Valid() && this.symbol == symbol && this.cfg == cfg
      ensures this.book == book && this.perp == perp && this.spot == spot && this.halt == halt
    {
      this.symbol, this.cfg, this.book, this.perp, this.spot, this.halt := symbol, cfg, book, perp, spot, halt;
    }

    ghost predicate Valid()
      reads this, book
    {
      perp != spot && book.Valid()
    }

    ghost function View(): World
      reads this, book, book.open.Values, perp, spot, halt
    {
      World(book.View(), halt.present, perp.position, spot.position)
    }

    /** The record being worked on is this symbol's, and lives in the book if any does. */
    ghost predicate Working(arb: ArbPosition)
      reads this, book
    {
      Valid() && arb.symbol == symbol && book.Owns(arb)
    }

    /** Buy back the short perp to return to flat.  HALT if it cannot. */
    method RollbackPerp(arb: ArbPosition, e: Replies)
      requires Working(arb)
      modifies book, arb, perp, halt
      ensures Valid()
      ensures View() == Rollback(old(View()), old(arb.View()), e)
    {
      hide Put, RowOf, ArbPosition.View;
      book.Advance(arb, UnwindingPerp, Lifecycle(arb.arbId, "ARB_LEG_UNWOUND"));
      arb.Fields();
      var fill := perp.Buy(arb.perpQty, e.perpBuy);
      if fill.None? {
        halt.Trip();
        return;
      }
      book.Update(arb, Lifecycle(arb.arbId, "ARB_ENTRY_ROLLED_BACK"));
      book.Close(arb, "entry_rolled_back", 0.0, e.t2);
    }

    /** Buy the spot leg to complete the hedge, else roll the perp back. */
    method CompleteSpotLeg(arb: ArbPosition, e: Replies)
      requires Working(arb)
      modifies book, arb, perp, spot, halt
      ensures Valid()
      ensures View() == CompleteSpot(old(View()), old(arb.View()), e)
    {
      hide Put, RowOf, Rollback, ArbPosition.View;
      arb.Fields();
      var fill := spot.Buy(arb.spotQty, e.spotBuy);
      if fill.None? {
        RollbackPerp(arb, e);
        return;
      }
      book.RecordHedge(arb, fill.value);
    }

    /** Short the perp first; a refusal leaves both venues flat and the record closed. */
    method PlacePerpLeg(arb: ArbPosition, e: Replies)
      requires Valid() && symbol !in book.open && arb.symbol == symbol
      modifies book, arb, perp, spot, halt
      ensures Valid()
      ensures View() == PlacePerp(old(View()), old(arb.View()), e)
    {
      hide Put, RowOf, CompleteSpot, ArbPosition.View;
      arb.Fields();
      var fill := perp.Sell(arb.perpQty, e.perpSell);
      if fill.None? {
        arb.SetState(Closed);
        book.OnlyItsEntry(arb);
        book.Update(arb, Lifecycle(arb.arbId, "ARB_ENTRY_ROLLED_BACK"));
        return;
      }
      book.RecordPerp(arb, fill.value);
      arb.Fields();
      CompleteSpotLeg(arb, e);
    }

    method MaybeEnter(e: Replies)
      requires Valid() && symbol !in book.open
      modifies book, perp, spot, halt
      ensures Valid()
      ensures View() == Enter(cfg, symbol, old(View()), e)
    {
      hide PlacePerp, SizeLegs, EntryCondition, Basis;
      if e.funding.None? || Basis(e).None? { return; }
      if !EntryCondition(cfg, e.funding.value, Basis(e).value) || e.sizeMark.None? { return; }
      var qty := SizeLegs(cfg, e.sizeMark.value);
      if qty <= 0.0 { return; }
      var arb := new ArbPosition(NewArb(symbol, qty, Basis(e).value, e));
      arb.Fields();
      PlacePerpLeg(arb, e);
    }

    /** Sell the spot leg and settle; a refused order leaves the record for the next tick. */
    method SellSpotLeg(arb: ArbPosition, reason: string, e: Replies)
      requires Working(arb)
      modifies book, arb, spot
      ensures Valid()
      ensures View() == SellSpot(old(View()), old(arb.View()), reason, e)
    {
      hide Put, RowOf, Realized, SpotExit;
      if e.exitMark.None? { return; }
      var perpExit := e.exitMark.value;
      var fill := spot.Sell(arb.spotQty, e.spotSell);
      if fill.None? { return; }
      var pnl := Realized(arb.View(), perpExit, SpotExit(fill.value, perpExit));
      book.Close(arb, reason, pnl, e.t2);
    }

    method UnwindLegs(arb: ArbPosition, reason: string, e: Replies)
      requires Working(arb)
      modifies book, arb, perp, spot, halt
      ensures Valid()
      ensures View() == Unwind(old(View()), old(arb.View()), reason, e)
    {
      hide Put, RowOf, SellSpot, ArbPosition.View;
      arb.Fields();
      if arb.state.Hedged? || arb.state.UnwindingPerp? {
        book.Advance(arb, UnwindingPerp, Lifecycle(arb.arbId, "ARB_LEG_UNWOUND"));
        arb.Fields();
        var fill := perp.Buy(arb.perpQty, e.perpBuy);
        if fill.None? {
          halt.Trip();
          return;
        }
        book.Advance(arb, UnwindingSpot, Lifecycle(arb.arbId, "ARB_LEG_UNWOUND"));
      }
      SellSpotLeg(arb, reason, e);
    }

    method ManageHedge(arb: ArbPosition, e: Replies)
      requires Working(arb) && arb.state.Hedged?
      modifies book, arb, perp, spot, halt
      ensures Valid()
      ensures View() == Manage(cfg, old(View()), old(arb.View()), e)
    {
      hide Put, RowOf, Unwind, EvaluateExit, PerpNotional, Payment;
      if e.funding.None? { return; }
      var fr := e.funding.value;
      if e.t0 - arb.lastFundingTs >= cfg.intervalMs {
        if e.sizeMark.None? { return; }
        var notional := PerpNotional(arb.View(), e.sizeMark.value);
        book.RecordFunding(arb, fr, notional, Payment(notional, fr), e.t1);
      }
      var v := EvaluateExit(cfg, arb.View(), fr, e);
      if v.Leave? {
        UnwindLegs(arb, v.reason, e);
      }
    }

    method ResolveStuck(arb: ArbPosition, e: Replies)
      requires Working(arb)
      modifies book, arb, perp, spot, halt
      ensures Valid()
      ensures View() == Resolve(old(View()), old(arb.View()), e)
    {
      hide Put, RowOf, Unwind, CompleteSpot;
      match arb.state {
        case PerpOnly => CompleteSpotLeg(arb, e);
        case UnwindingPerp => UnwindLegs(arb, ResumeReason(arb.View()), e);
        case UnwindingSpot => UnwindLegs(arb, ResumeReason(arb.View()), e);
        case PlacingPerp => book.Close(arb, "abandoned_placing", 0.0, e.t2);
        case _ =>
      }
    }

    method OnSignalTick(e: Replies)
      requires Valid()
      modifies book, book.open.Values, perp, spot, halt
      ensures Valid()
      ensures View() == Tick(cfg, symbol, old(View()), e)
    {
      hide Put, RowOf, Unwind, Enter, Manage, Resolve;
      if !cfg.enabled { return; }
      if symbol !in book.open {
        if !halt.present {
          MaybeEnter(e);
        }
        return;
      }
      var arb := book.open[symbol];
      assert View().book.open[symbol] == arb.View();
      if halt.present {
        if arb.state.Hedged? {
          UnwindLegs(arb, "halt", e);
        }
      } else if arb.state.Hedged? {
        ManageHedge(arb, e);
      } else {
        ResolveStuck(arb, e);
      }
    }
  }
}
