/** The simulated futures wallet: a balance, a realised total and positions updated in
    place; every position moves as WalletRules says. */
module Wallet {
  import opened Wrappers
  import opened Reals
  import opened WalletRules

  // ----- sums over a set of symbols -----

  ghost function Sum(ks: set<string>, x: map<string, real>): real
    requires ks <= x.Keys
  {
    if ks == {} then 0.0
    else
      var k :| k in ks;
      x[k] + Sum(ks - {k}, x)
  }

  /** Any element may be taken out first. */
  lemma {:induction false} SumTakes(ks: set<string>, x: map<string, real>, k: string)
    requires ks <= x.Keys && k in ks
    ensures Sum(ks, x) == x[k] + Sum(ks - {k}, x)
    decreases |ks|
  {
    var j :| j in ks && Sum(ks, x) == x[j] + Sum(ks - {j}, x);
    if j != k {
      SumTakes(ks - {j}, x, k);
      SumTakes(ks - {k}, x, j);
      assert ks - {j} - {k} == ks - {k} - {j};
    }
  }

  class EnhancedPosition {
    const symbol: string
    const side: Side
    const swing: bool
    const entry: Positive
    const original: Positive
    const leverage: Positive
    const openTime: int
    const initialStop: real
    const timeStopHours: real
    var remaining: real
    var notional: real
    var marginUsed: real
    var stop: real
    var targets: seq<Target>
    var trailing: bool
    var unrealized: real
    var partialPnl: real
    var isOpen: bool

    function View(): Pos
      reads this
    {
      Pos(symbol, side, swing, entry, original, leverage, openTime, initialStop, timeStopHours,
          remaining, notional, marginUsed, stop, targets, trailing, unrealized, partialPnl, isOpen)
    }

    constructor (p: Pos)
      ensures View() == p
    {
      symbol, side, swing, entry, original, leverage := p.symbol, p.side, p.swing, p.entry, p.original, p.leverage;
      openTime, initialStop, timeStopHours := p.openTime, p.initialStop, p.timeStopHours;
      remaining, notional, marginUsed, stop := p.remaining, p.notional, p.marginUsed, p.stop;
      targets, trailing, unrealized := p.targets, p.trailing, p.unrealized;
      partialPnl, isOpen := p.partialPnl, p.isOpen;
    }

    lemma Symbol()
      ensures View().symbol == symbol && View().isOpen == isOpen && View().marginUsed == marginUsed
    {
    }

    method UpdatePnl(price: real)
      modifies this
      ensures View() == if old(isOpen) then Mark(old(View()), price) else old(View())
    {
      if !isOpen { return; }
      notional := remaining * price;
      marginUsed := remaining * price / leverage;
      unrealized := Gain(View(), price) * remaining;
    }
  }

  /** What one pass of update_positions does to the position of a symbol. */
  function StepFor(p: Pos, prices: map<string, real>, emas: map<string, real>, now: int): Step
    requires Laddered(p)
  {
    if p.symbol !in prices then Step(p, 0.0, [])
    else Update(p, prices[p.symbol], now, if p.symbol in emas then Some(emas[p.symbol]) else None)
  }

  predicate AllLaddered(ps: map<string, Pos>) {
    forall s :: s in ps ==> Laddered(ps[s])
  }

  /** m is `was` with every position outside `todo` stepped. */
  predicate Updated(was: map<string, Pos>, m: map<string, Pos>, todo: set<string>,
                    prices: map<string, real>, emas: map<string, real>, now: int)
    requires AllLaddered(was)
  {
    m.Keys == was.Keys
    && forall s :: s in was ==> m[s] == if s in todo then was[s] else StepFor(was[s], prices, emas, now).pos
  }

  lemma NothingUpdated(was: map<string, Pos>, prices: map<string, real>, emas: map<string, real>, now: int)
    requires AllLaddered(was)
    ensures Updated(was, was, was.Keys, prices, emas, now)
  {
  }

  lemma OneUpdated(was: map<string, Pos>, m: map<string, Pos>, todo: set<string>,
                   prices: map<string, real>, emas: map<string, real>, now: int, s: string)
    requires AllLaddered(was) && Updated(was, m, todo, prices, emas, now) && s in todo && s in was
    ensures m[s] == was[s]
    ensures Updated(was, m[s := StepFor(was[s], prices, emas, now).pos], todo - {s}, prices, emas, now)
  {
  }

  ghost function CashOf(ps: map<string, Pos>, prices: map<string, real>, emas: map<string, real>, now: int)
    : (r: map<string, real>)
    requires forall s :: s in ps ==> Laddered(ps[s])
    ensures r.Keys == ps.Keys
  {
    map s | s in ps :: StepFor(ps[s], prices, emas, now).cash
  }

  function OpenMargin(p: Pos): real {
    if p.isOpen then p.marginUsed else 0.0
  }

  /** What a playbook hands to the wallet. */
  datatype Setup = Setup(side: Side, swing: bool, stop: real, targets: seq<Target>, timeStopHours: real)

  class EnhancedFuturesWallet {
    const initialBalance: real
    const leverage: Positive
    const utilization: real
    var balance: real
    var realizedTotal: real
    var positions: map<string, EnhancedPosition>

    /** Positions sit under their own symbols, and the books balance. */
    ghost predicate Valid()
      reads this, positions.Values
    {
      Placed() && balance - initialBalance == realizedTotal
    }

    /** Every position has the right size and stop. */
    ghost predicate AllSane()
      reads this, positions.Values
    {
      forall s :: s in positions ==> Sane(positions[s].View())
    }

    /** Every ladder is ordered and taken in order. */
    ghost predicate AllInOrder()
      reads this, positions.Values
    {
      forall s :: s in positions ==> TakenInOrder(positions[s].View())
    }

    ghost function Views(): map<string, Pos>
      reads this, positions.Values
    {
      map s | s in positions :: positions[s].View()
    }

    ghost function OpenMargins(): map<string, real>
      reads this, positions.Values
    {
      map s | s in positions :: OpenMargin(positions[s].View())
    }

    constructor (initialBalance: real, leverage: Positive, utilization: real)
      ensures Valid() && positions == map[] && balance == initialBalance
    {
      this.initialBalance, this.leverage, this.utilization := initialBalance, leverage, utilization;
      balance, realizedTotal, positions := initialBalance, 0.0, map[];
    }

    method AvailableBalance() returns (a: real)
      ensures
        var free := balance - Sum(positions.Keys, OpenMargins());
        a == if free > 0.0 then free else 0.0
    {
      hide EnhancedPosition.View;
      var used := 0.0;
      var todo := positions.Keys;
      ghost var margins := OpenMargins();
      while todo != {}
        invariant todo <= positions.Keys == margins.Keys
        invariant used == Sum(positions.Keys, margins) - Sum(todo, margins)
      {
        var s :| s in todo;
        SumTakes(todo, margins, s);
        positions[s].Symbol();
        if positions[s].isOpen {
          used := used + positions[s].marginUsed;
        }
        todo := todo - {s};
      }
      a := if balance - used > 0.0 then balance - used else 0.0;
    }

    /** Settle cash on both running totals. */
    method Book(cash: real)
      modifies this`balance, this`realizedTotal
      ensures balance == old(balance) + cash && realizedTotal == old(realizedTotal) + cash
    {
      balance := balance + cash;
      realizedTotal := realizedTotal + cash;
    }

    /** All of it goes at the price; the gain, less the fee, is paid out. */
    method ClosePosition(pos: EnhancedPosition, price: real)
      requires pos.isOpen
      modifies this`balance, this`realizedTotal, pos
      ensures pos.View() == old(pos.View()).(remaining := 0.0, isOpen := false)
      ensures
        var q, move := old(pos.remaining), if pos.side == Long then price - pos.entry else pos.entry - price;
        balance == old(balance) + q * move - 0.0004 * q * price
      ensures balance == old(balance) + CloseAll(old(pos.View()), price).cash
      ensures balance - realizedTotal == old(balance - realizedTotal)
    {
      hide Payout;
      PayoutWritten(pos.View(), price, pos.remaining);
      Book(Payout(pos.View(), price, pos.remaining));
      pos.remaining := 0.0;
      pos.isOpen := false;
    }

    /** A share of it goes at the price, and the rest too if it is dust; what goes is paid out,
        and the share alone counts as partial PnL. */
    method PartialClose(pos: EnhancedPosition, price: real, share: real)
      requires pos.isOpen
      modifies this`balance, this`realizedTotal, pos
      ensures
        var all, q := old(pos.remaining), old(pos.remaining) * share;
        var move := if pos.side == Long then price - pos.entry else pos.entry - price;
        var gone := if q <= 0.0 then 0.0 else if all - q <= 0.0001 then all else q;
        && balance == old(balance) + gone * move - 0.0004 * gone * price
        && pos.remaining == all - gone && (pos.isOpen <==> q <= 0.0 || all - q > 0.0001)
        && pos.partialPnl == old(pos.partialPnl) + if q <= 0.0 then 0.0 else q * move - 0.0004 * q * price
      ensures pos.View() == ClosePart(old(pos.View()), price, share).pos
      ensures balance == old(balance) + ClosePart(old(pos.View()), price, share).cash
      ensures balance - realizedTotal == old(balance - realizedTotal)
    {
      hide Payout, Portion;
      ClosePartWritten(pos.View(), price, share);
      var qty := Portion(pos.View(), share);
      if qty <= 0.0 { return; }
      var net := Payout(pos.View(), price, qty);
      pos.remaining := pos.remaining - qty;
      pos.partialPnl := pos.partialPnl + net;
      Book(net);
      if pos.remaining <= DUST {
        ClosePosition(pos, price);
      }
    }

    /** Playbook exits of a marked, still open position. */
    method PlaybookExit(pos: EnhancedPosition, price: real, ema: Option<real>)
      requires pos.isOpen && Laddered(pos.View())
      modifies this`balance, this`realizedTotal, pos
      ensures pos.View() == ExitPlaybook(old(pos.View()), price, ema).pos
      ensures balance == old(balance) + ExitPlaybook(old(pos.View()), price, ema).cash
      ensures balance - realizedTotal == old(balance - realizedTotal)
    {
      hide ClosePart, Payout, Reached, TrailingHit;
      if !pos.swing {
        var k, done := 0, false;
        ghost var p := pos.View();
        while k < |pos.targets| && !done
          invariant 0 <= k <= |pos.targets|
          invariant !done ==> pos.View() == p && balance == old(balance) && realizedTotal == old(realizedTotal)
          invariant !done ==> forall j :: 0 <= j < k ==> p.targets[j].hit || !Reached(p, p.targets[j].price, price)
          invariant done ==> AnyTargetReached(p, price) && pos.View() == CloseAll(p, price).pos
          invariant done ==> balance == old(balance) + CloseAll(p, price).cash
          invariant done ==> balance - realizedTotal == old(balance - realizedTotal)
        {
          if !pos.targets[k].hit && Reached(pos.View(), pos.targets[k].price, price) {
            ClosePosition(pos, price);
            done := true;
          }
          k := k + 1;
        }
        return;
      }
      if !pos.targets[0].hit && Reached(pos.View(), pos.targets[0].price, price) {
        pos.targets := pos.targets[0 := pos.targets[0].(hit := true)];
        PartialClose(pos, price, 0.5);
        pos.stop := pos.entry;
        return;
      }
      if !pos.targets[1].hit && Reached(pos.View(), pos.targets[1].price, price) {
        pos.targets := pos.targets[1 := pos.targets[1].(hit := true)];
        PartialClose(pos, price, 0.5);
        pos.trailing := true;
        return;
      }
      if TrailingHit(pos.View(), price, ema) {
        ClosePosition(pos, price);
      }
    }

    method UpdateOne(pos: EnhancedPosition, price: real, now: int, ema: Option<real>)
      requires Laddered(pos.View())
      modifies this`balance, this`realizedTotal, pos
      ensures pos.View() == Update(old(pos.View()), price, now, ema).pos
      ensures balance == old(balance) + Update(old(pos.View()), price, now, ema).cash
      ensures balance - realizedTotal == old(balance - realizedTotal)
    {
      hide ExitPlaybook, Catastrophic, TimedOut, StopHit, Payout;
      if !pos.isOpen || price <= 0.0 { return; }
      pos.UpdatePnl(price);
      if Catastrophic(pos.View()) || TimedOut(pos.View(), now) || StopHit(pos.View(), price) {
        ClosePosition(pos, price);
        return;
      }
      PlaybookExit(pos, price, ema);
    }

    ghost predicate Placed()
      reads this
    {
      forall s :: s in positions ==> positions[s].symbol == s
    }

    ghost predicate Shows(m: map<string, Pos>)
      reads this, positions.Values
    {
      m.Keys == positions.Keys && forall s :: s in positions ==> positions[s].View() == m[s]
    }

    /** The update of one symbol, if it has a quote; the other positions stay as they are. */
    method UpdateSymbol(s: string, prices: map<string, real>, emas: map<string, real>, now: int,
                        ghost m: map<string, Pos>)
      requires Placed() && Shows(m) && s in positions && Laddered(m[s])
      modifies this`balance, this`realizedTotal, positions.Values
      ensures Placed() && positions == old(positions)
      ensures Shows(m[s := StepFor(m[s], prices, emas, now).pos])
      ensures balance == old(balance) + StepFor(m[s], prices, emas, now).cash
      ensures balance - realizedTotal == old(balance - realizedTotal)
    {
      hide EnhancedPosition.View, Update;
      var pos := positions[s];
      pos.Symbol();
      if s in prices {
        UpdateOne(pos, prices[s], now, if s in emas then Some(emas[s]) else None);
      }
    }

    /** Visit every position once, in any order. */
    method VisitAll(prices: map<string, real>, emas: map<string, real>, now: int, ghost was: map<string, Pos>)
      returns (ghost m: map<string, Pos>)
      requires Placed() && Shows(was) && AllLaddered(was)
      modifies this`balance, this`realizedTotal, positions.Values
      ensures Placed() && positions == old(positions) && Shows(m)
      ensures Updated(was, m, {}, prices, emas, now)
      ensures balance == old(balance) + Sum(was.Keys, CashOf(was, prices, emas, now))
      ensures balance - realizedTotal == old(balance - realizedTotal)
    {
      hide EnhancedPosition.View, StepFor, Sum, Laddered, Updated;
      m := was;
      ghost var cash := CashOf(was, prices, emas, now);
      var todo := positions.Keys;
      NothingUpdated(was, prices, emas, now);
      while todo != {}
        invariant todo <= positions.Keys == was.Keys
        invariant Placed() && positions == old(positions) && Shows(m)
        invariant Updated(was, m, todo, prices, emas, now)
        invariant balance == old(balance) + Sum(was.Keys, cash) - Sum(todo, cash)
        invariant balance - realizedTotal == old(balance - realizedTotal)
      {
        var s :| s in todo;
        SumTakes(todo, cash, s);
        OneUpdated(was, m, todo, prices, emas, now, s);
        UpdateSymbol(s, prices, emas, now, m);
        m := m[s := StepFor(m[s], prices, emas, now).pos];
        todo := todo - {s};
      }
      EmptySum(cash);
    }

    /** One price update over all positions.  A swing position without its two targets makes
        the code fail on the list access. */
    method UpdatePositions(prices: map<string, real>, emas: map<string, real>, now: int)
      requires Valid() && AllLaddered(Views())
      modifies this`balance, this`realizedTotal, positions.Values
      ensures Valid() && (old(AllSane()) ==> AllSane())
      ensures old(AllInOrder()) ==> AllInOrder()
      ensures positions == old(positions)
      ensures forall s :: s in positions ==>
        positions[s].View() == StepFor(old(Views())[s], prices, emas, now).pos
      ensures balance == old(balance) + Sum(old(positions.Keys), CashOf(old(Views()), prices, emas, now))
    {
      hide EnhancedPosition.View, StepFor, Sum, Sane, TakenInOrder;
      ghost var was := Views();
      forall s | s in was && Sane(was[s])
        ensures Sane(StepFor(was[s], prices, emas, now).pos)
      {
        StepSane(was[s], prices, emas, now);
      }
      forall s | s in was && TakenInOrder(was[s])
        ensures TakenInOrder(StepFor(was[s], prices, emas, now).pos)
      {
        StepInOrder(was[s], prices, emas, now);
      }
      ghost var m := VisitAll(prices, emas, now, was);
    }

    /** The margin a new position would take: its share of what is free. */
    ghost function NewMargin(): real
      reads this, positions.Values
    {
      var free := balance - Sum(positions.Keys, OpenMargins());
      (if free > 0.0 then free else 0.0) * utilization
    }

    ghost predicate Busy(symbol: string)
      reads this, positions.Values
    {
      symbol in positions && positions[symbol].isOpen
    }

    /** Put a new position under its symbol; a closed one there is forgotten. */
    method Admit(p: Pos)
      requires Valid() && !Busy(p.symbol)
      modifies this`positions
      ensures Valid() && positions.Keys == old(positions.Keys) + {p.symbol}
      ensures old(AllSane()) && Sane(p) ==> AllSane()
      ensures old(AllInOrder()) && TakenInOrder(p) ==> AllInOrder()
      ensures positions[p.symbol].View() == p
      ensures forall s :: s in old(positions) && s != p.symbol ==> positions[s] == old(positions[s])
    {
      hide EnhancedPosition.View, Sane, TakenInOrder;
      var pos := new EnhancedPosition(p);
      pos.Symbol();
      positions := positions[p.symbol := pos];
    }

    /** Take the entry fee and admit the position. */
    method Place(p: Pos, fee: real)
      requires Valid() && !Busy(p.symbol)
      modifies this
      ensures Valid() && balance == old(balance) - fee
      ensures old(AllSane()) && Sane(p) ==> AllSane()
      ensures old(AllInOrder()) && TakenInOrder(p) ==> AllInOrder()
      ensures positions.Keys == old(positions.Keys) + {p.symbol} && positions[p.symbol].View() == p
      ensures forall s :: s in old(positions) && s != p.symbol ==> positions[s] == old(positions[s])
    {
      hide EnhancedPosition.View, Sane, TakenInOrder;
      Book(-fee);
      Admit(p);
    }

    /** Open with a share of the free balance; refused while the symbol is already open or
        nothing is free.  The entry fee is taken from the balance at once. */
    method OpenPosition(symbol: string, setup: Setup, mark: Positive, now: int)
      returns (ok: bool)
      requires Valid()
      modifies this
      ensures Valid() && (old(AllSane()) && Fresh(setup) ==> AllSane())
      ensures old(AllInOrder()) && Fresh(setup) && Ordered(setup) ==> AllInOrder()
      ensures ok <==> old(!Busy(symbol) && NewMargin() > 0.0)
      ensures !ok ==> balance == old(balance) && positions == old(positions)
      ensures ok ==> balance == old(balance) - old(NewMargin()) * leverage * 0.0004
      ensures ok ==> positions.Keys == old(positions.Keys) + {symbol}
      ensures ok ==> forall s :: s in old(positions) && s != symbol ==> positions[s] == old(positions[s])
      ensures ok ==> Opened(positions[symbol].View(), symbol, setup, mark, now, old(NewMargin()), leverage)
    {
      hide EnhancedPosition.View, Sane, Sum, NewPos, TakenInOrder, Fresh, Ordered, Opened;
      if symbol in positions && positions[symbol].isOpen {
        return false;
      }
      var available := AvailableBalance();
      var margin := available * utilization;
      assert margin == NewMargin();
      if margin <= 0.0 {
        return false;
      }
      var p := NewPos(symbol, setup, mark, now, margin, leverage);
      NewPosOpened(symbol, setup, mark, now, margin, leverage);
      if Fresh(setup) {
        NewPosSane(symbol, setup, mark, now, margin, leverage);
        NewPosInOrder(symbol, setup, mark, now, margin, leverage);
      }
      Place(p, margin * leverage * FEE_RATE);
      return true;
    }
  }

  predicate Fresh(setup: Setup) {
    FreshTargets(setup.swing, setup.targets)
  }

  predicate Ordered(setup: Setup) {
    OrderedTargets(setup.side, setup.swing, setup.targets)
  }

  /** Quantity such that margin times leverage buys it at the mark. */
  function NewQuantity(margin: real, leverage: Positive, mark: Positive): (q: Positive)
    requires margin > 0.0
    ensures q * mark == margin * leverage
  {
    margin * leverage / mark
  }

  function NewPos(symbol: string, setup: Setup, mark: Positive, now: int, margin: real, leverage: Positive): (p: Pos)
    requires margin > 0.0
    ensures p.symbol == symbol
  {
    var qty := NewQuantity(margin, leverage, mark);
    Pos(symbol, setup.side, setup.swing, mark, qty, leverage, now, setup.stop, setup.timeStopHours,
        qty, margin * leverage, margin, setup.stop, setup.targets, false, 0.0, 0.0, true)
  }

  /** A whole, unmarked position: margin times leverage worth of it at the mark. */
  predicate Opened(p: Pos, symbol: string, setup: Setup, mark: Positive, now: int, margin: real, leverage: Positive) {
    && p.symbol == symbol && p.side == setup.side && p.swing == setup.swing && p.isOpen
    && p.entry == mark && p.original == p.remaining && p.original * mark == margin * leverage
    && p.leverage == leverage && p.marginUsed == margin && p.notional == margin * leverage
    && p.openTime == now && p.timeStopHours == setup.timeStopHours
    && p.initialStop == p.stop == setup.stop && p.targets == setup.targets && !p.trailing
    && p.unrealized == 0.0 && p.partialPnl == 0.0
  }

  lemma NewPosOpened(symbol: string, setup: Setup, mark: Positive, now: int, margin: real, leverage: Positive)
    requires margin > 0.0
    ensures Opened(NewPos(symbol, setup, mark, now, margin, leverage), symbol, setup, mark, now, margin, leverage)
  {
  }

  lemma NewPosSane(symbol: string, setup: Setup, mark: Positive, now: int, margin: real, leverage: Positive)
    requires margin > 0.0 && Fresh(setup)
    ensures
      var p := NewPos(symbol, setup, mark, now, margin, leverage);
      p.symbol == symbol && Sane(p)
  {
  }

  lemma NewPosInOrder(symbol: string, setup: Setup, mark: Positive, now: int, margin: real, leverage: Positive)
    requires margin > 0.0 && Fresh(setup)
    ensures Ordered(setup) ==>
            TakenInOrder(NewPos(symbol, setup, mark, now, margin, leverage))
  {
  }

  lemma StepInOrder(p: Pos, prices: map<string, real>, emas: map<string, real>, now: int)
    requires Laddered(p) && TakenInOrder(p)
    ensures TakenInOrder(StepFor(p, prices, emas, now).pos)
  {
    hide Update, TakenInOrder;
    if p.symbol in prices {
      UpdateKeepsOrder(p, prices[p.symbol], now, if p.symbol in emas then Some(emas[p.symbol]) else None);
    }
  }

  lemma EmptySum(x: map<string, real>)
    ensures Sum({}, x) == 0.0
  {
  }

  lemma StepSane(p: Pos, prices: map<string, real>, emas: map<string, real>, now: int)
    requires Sane(p)
    ensures Sane(StepFor(p, prices, emas, now).pos)
  {
    hide Update, RightSize, RightStop;
    if p.symbol in prices {
      UpdateSane(p, prices[p.symbol], now, if p.symbol in emas then Some(emas[p.symbol]) else None);
    }
  }

}
