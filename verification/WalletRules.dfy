/** One position of the simulated wallet: what a price update does to it and pays out. */
module WalletRules {
  import opened Wrappers
  import opened Reals

  const FEE_RATE := 0.0004
  const DUST := 0.0001
  const HOUR_MS := 3600000.0

  datatype Side = Long | Short
  datatype Target = Target(price: real, hit: bool)

  datatype Pos = Pos(
    symbol: string, side: Side, swing: bool, entry: Positive, original: Positive, leverage: Positive,
    openTime: int, initialStop: real, timeStopHours: real,
    remaining: real, notional: real, marginUsed: real, stop: real, targets: seq<Target>,
    trailing: bool, unrealized: real, partialPnl: real, isOpen: bool)

  function Gain(p: Pos, price: real): real {
    if p.side.Long? then price - p.entry else p.entry - price
  }

  /** What closing qty at a price pays, its fee taken off. */
  function Payout(p: Pos, price: real, qty: real): real {
    Gain(p, price) * qty - qty * price * FEE_RATE
  }

  /** A quantity closed at a price, by a partial or by the final close. */
  datatype Lot = Lot(price: real, qty: real, partial: bool)

  /** A position after a step, the cash it paid and the lots it closed. */
  datatype Step = Step(pos: Pos, cash: real, lots: seq<Lot>)

  function Mark(p: Pos, price: real): Pos {
    p.(notional := p.remaining * price, marginUsed := p.remaining * price / p.leverage,
       unrealized := Gain(p, price) * p.remaining)
  }

  function CloseAll(p: Pos, price: real): Step {
    Step(p.(remaining := 0.0, isOpen := false), Payout(p, price, p.remaining), [Lot(price, p.remaining, false)])
  }

  function Portion(p: Pos, share: real): real {
    p.remaining * share
  }

  /** Close a share of what remains; dust left over is closed with it. */
  function ClosePart(p: Pos, price: real, share: real): Step {
    var qty := Portion(p, share);
    if qty <= 0.0 then Step(p, 0.0, [])
    else
      var net := Payout(p, price, qty);
      var p' := p.(remaining := p.remaining - qty, partialPnl := p.partialPnl + net);
      if p'.remaining <= DUST then
        var rest := CloseAll(p', price);
        Step(rest.pos, net + rest.cash, [Lot(price, qty, true)] + rest.lots)
      else Step(p', net, [Lot(price, qty, true)])
  }

  predicate Reached(p: Pos, level: real, price: real) {
    if p.side.Long? then price >= level else price <= level
  }

  predicate StopHit(p: Pos, price: real) {
    if p.side.Long? then price <= p.stop else price >= p.stop
  }

  predicate Catastrophic(p: Pos) {
    p.marginUsed + p.unrealized < p.marginUsed * 0.5
  }

  predicate TimedOut(p: Pos, now: int) {
    (now - p.openTime) as real / HOUR_MS >= p.timeStopHours
  }

  predicate TrailingHit(p: Pos, price: real, ema: Option<real>) {
    && p.trailing && ema.Some? && ema.value != 0.0
    && (if p.side.Long? then price < ema.value else price > ema.value)
  }

  predicate AnyTargetReached(p: Pos, price: real) {
    exists k :: 0 <= k < |p.targets| && !p.targets[k].hit && Reached(p, p.targets[k].price, price)
  }

  /** First target: half is closed and the stop moves to the entry price. */
  function TakeFirst(p: Pos, price: real): Step
    requires |p.targets| >= 2
  {
    var s := ClosePart(p.(targets := p.targets[0 := p.targets[0].(hit := true)]), price, 0.5);
    s.(pos := s.pos.(stop := p.entry))
  }

  /** Second target: half of the rest is closed and the trailing stop is armed. */
  function TakeSecond(p: Pos, price: real): Step
    requires |p.targets| >= 2
  {
    var s := ClosePart(p.(targets := p.targets[1 := p.targets[1].(hit := true)]), price, 0.5);
    s.(pos := s.pos.(trailing := true))
  }

  /** A swing position needs its two targets. */
  predicate Laddered(p: Pos) {
    p.swing ==> |p.targets| >= 2
  }

  function ExitPlaybook(p: Pos, price: real, ema: Option<real>): Step
    requires Laddered(p)
  {
    if !p.swing then (if AnyTargetReached(p, price) then CloseAll(p, price) else Step(p, 0.0, []))
    else if !p.targets[0].hit && Reached(p, p.targets[0].price, price) then TakeFirst(p, price)
    else if !p.targets[1].hit && Reached(p, p.targets[1].price, price) then TakeSecond(p, price)
    else if TrailingHit(p, price, ema) then CloseAll(p, price)
    else Step(p, 0.0, [])
  }

  function Update(p: Pos, price: real, now: int, ema: Option<real>): Step
    requires Laddered(p)
  {
    if !p.isOpen || price <= 0.0 then Step(p, 0.0, [])
    else
      var m := Mark(p, price);
      if Catastrophic(m) || TimedOut(m, now) || StopHit(m, price) then CloseAll(m, price)
      else ExitPlaybook(m, price, ema)
  }

  // ----- what a position always satisfies -----

  function Hits(p: Pos): nat {
    if !p.swing || |p.targets| < 2 then 0
    else (if p.targets[0].hit then 1 else 0) + (if p.targets[1].hit then 1 else 0)
  }

  /** While open, a swing position holds all, half or a quarter of what it opened with,
      by how many targets it has taken; any other holds all of it. */
  predicate RightSize(p: Pos) {
    if !p.isOpen then p.remaining == 0.0
    else p.remaining == match Hits(p) case 0 => p.original case 1 => p.original / 2.0 case _ => p.original / 4.0
  }

  /** The stop is the initial one until the first target is taken, then the entry. */
  predicate RightStop(p: Pos) {
    p.stop == if p.swing && |p.targets| >= 2 && p.targets[0].hit then p.entry else p.initialStop
  }

  predicate Sane(p: Pos) {
    Laddered(p) && RightSize(p) && RightStop(p)
  }

  /** A partial close touches size, PnL and status only. */
  lemma ClosePartKeeps(p: Pos, price: real, share: real)
    ensures
      var p' := ClosePart(p, price, share).pos;
      p' == p.(remaining := p'.remaining, partialPnl := p'.partialPnl, isOpen := p'.isOpen)
  {
    hide Payout, Portion;
  }

  lemma ClosePartHalves(p: Pos, price: real)
    requires p.isOpen && p.remaining > 0.0
    ensures
      var p' := ClosePart(p, price, 0.5).pos;
      && p' == p.(remaining := p'.remaining, partialPnl := p'.partialPnl, isOpen := p'.isOpen)
      && (p'.isOpen ==> p'.remaining == p.remaining / 2.0)
      && (!p'.isOpen ==> p'.remaining == 0.0)
  {
    hide Payout;
  }

  /** Every update keeps size and stop right. */
  lemma UpdateSane(p: Pos, price: real, now: int, ema: Option<real>)
    requires Sane(p)
    ensures Sane(Update(p, price, now, ema).pos)
  {
    hide ClosePart, Payout, Gain, Catastrophic, TimedOut, StopHit, TrailingHit, AnyTargetReached, Reached;
    if p.isOpen && price > 0.0 && p.swing {
      var m := Mark(p, price);
      ClosePartHalves(m.(targets := m.targets[0 := m.targets[0].(hit := true)]), price);
      ClosePartHalves(m.(targets := m.targets[1 := m.targets[1].(hit := true)]), price);
    }
  }

  /** The second target is not nearer than the first. */
  predicate OrderedTargets(side: Side, swing: bool, targets: seq<Target>) {
    swing && |targets| >= 2 ==>
      if side.Long? then targets[0].price <= targets[1].price else targets[0].price >= targets[1].price
  }

  predicate LadderOrdered(p: Pos) {
    OrderedTargets(p.side, p.swing, p.targets)
  }

  const B_TP1_PCT := 0.010
  const B_TP2_PCT := 0.020

  /** The ladder of the swing playbook, the only one with two targets. */
  function SwingTargets(side: Side, price: real): seq<Target> {
    if side.Long? then [Target(price * (1.0 + B_TP1_PCT), false), Target(price * (1.0 + B_TP2_PCT), false)]
    else [Target(price * (1.0 - B_TP1_PCT), false), Target(price * (1.0 - B_TP2_PCT), false)]
  }

  predicate FreshTargets(swing: bool, targets: seq<Target>) {
    (swing ==> |targets| >= 2) && forall k :: 0 <= k < |targets| ==> !targets[k].hit
  }

  /** The playbook's own ladder is fresh and ordered at any price: 1 % and 2 % in favour. */
  lemma SwingLadderOrdered(side: Side, price: Positive)
    ensures
      var targets := SwingTargets(side, price);
      && FreshTargets(true, targets) && OrderedTargets(side, true, targets) && |targets| == 2
      && (side == Long ==> targets[0].price - price == 0.01 * price && targets[1].price - price == 0.02 * price)
      && (side == Short ==> price - targets[0].price == 0.01 * price && price - targets[1].price == 0.02 * price)
  {
  }

  /** Targets keep their prices, and a hit target stays hit. */
  predicate SameLadder(p: Pos, p': Pos) {
    && p'.side == p.side && p'.swing == p.swing && |p'.targets| == |p.targets|
    && forall k :: 0 <= k < |p.targets| ==>
         p'.targets[k].price == p.targets[k].price && (p.targets[k].hit ==> p'.targets[k].hit)
  }

  lemma UpdateKeepsLadder(p: Pos, price: real, now: int, ema: Option<real>)
    requires Laddered(p)
    ensures SameLadder(p, Update(p, price, now, ema).pos)
  {
    hide ClosePart, Gain, Catastrophic, TimedOut, StopHit, TrailingHit, AnyTargetReached, Reached, Payout;
    if p.swing {
      var m := Mark(p, price);
      ClosePartKeeps(m.(targets := m.targets[0 := m.targets[0].(hit := true)]), price, 0.5);
      ClosePartKeeps(m.(targets := m.targets[1 := m.targets[1].(hit := true)]), price, 0.5);
    }
  }

  predicate FirstBeforeSecond(p: Pos) {
    p.swing && |p.targets| >= 2 && p.targets[1].hit ==> p.targets[0].hit
  }

  /** On an ordered ladder the second target is never taken before the first. */
  lemma SecondNeedsFirst(p: Pos, price: real, now: int, ema: Option<real>)
    requires Laddered(p) && LadderOrdered(p) && FirstBeforeSecond(p)
    ensures FirstBeforeSecond(Update(p, price, now, ema).pos)
  {
    hide Payout, Gain, Catastrophic, TimedOut, StopHit, TrailingHit, AnyTargetReached;
  }

  /** What the wallet keeps of every position: an ordered ladder, taken in order. */
  predicate TakenInOrder(p: Pos) {
    LadderOrdered(p) && FirstBeforeSecond(p)
  }

  lemma UpdateKeepsOrder(p: Pos, price: real, now: int, ema: Option<real>)
    requires Laddered(p) && TakenInOrder(p)
    ensures TakenInOrder(Update(p, price, now, ema).pos)
  {
    hide Update, FirstBeforeSecond;
    SecondNeedsFirst(p, price, now, ema);
    UpdateKeepsLadder(p, price, now, ema);
  }

  /** Off it, exactly the prices between the two targets take the second one first. */
  lemma SecondFirstIff(p: Pos, price: real, now: int, ema: Option<real>)
    requires p.swing && Laddered(p) && p.isOpen && price > 0.0
    requires !p.targets[0].hit && !p.targets[1].hit
    requires !Catastrophic(Mark(p, price)) && !TimedOut(p, now) && !StopHit(p, price)
    ensures !FirstBeforeSecond(Update(p, price, now, ema).pos) <==>
            Reached(p, p.targets[1].price, price) && !Reached(p, p.targets[0].price, price)
  {
    hide Payout, Gain, Catastrophic, TrailingHit, AnyTargetReached;
  }

  /** What survives an update is still inside all three stops. */
  lemma SurvivorInsideStops(p: Pos, price: real, now: int, ema: Option<real>)
    requires Laddered(p) && p.isOpen && price > 0.0
    requires Update(p, price, now, ema).pos.isOpen
    ensures if p.side == Long then price > p.stop else price < p.stop
    ensures (now - p.openTime) as real < p.timeStopHours * 3600000.0
    ensures p.side == Long ==> p.remaining * (price - p.entry) >= -0.5 * (p.remaining * price / p.leverage)
    ensures p.side == Short ==> p.remaining * (p.entry - price) >= -0.5 * (p.remaining * price / p.leverage)
  {
    hide ExitPlaybook, StopHit, Catastrophic, TimedOut, Payout, Gain;
    SameStop(p, price);
    StopWritten(p, price);
    TimeWritten(Mark(p, price), now);
    LossWritten(p, price);
  }

  lemma StopWritten(p: Pos, price: real)
    ensures StopHit(p, price) <==> if p.side == Long then price <= p.stop else price >= p.stop
  {
  }

  lemma SameStop(p: Pos, price: real)
    ensures StopHit(Mark(p, price), price) == StopHit(p, price)
  {
  }

  lemma TimeWritten(p: Pos, now: int)
    ensures TimedOut(p, now) <==> (now - p.openTime) as real >= p.timeStopHours * 3600000.0
  {
  }

  /** A loss of more than half the margin. */
  lemma LossWritten(p: Pos, price: real)
    ensures
      var move, margin := if p.side == Long then price - p.entry else p.entry - price, p.remaining * price / p.leverage;
      Catastrophic(Mark(p, price)) <==> p.remaining * move < -0.5 * margin
  {
    var m := Mark(p, price);
    var move := if p.side == Long then price - p.entry else p.entry - price;
    assert m.unrealized == p.remaining * move;
  }

  // ----- what is closed is paid for -----

  function Quantity(lots: seq<Lot>): real {
    if lots == [] then 0.0 else Quantity(lots[..|lots| - 1]) + lots[|lots| - 1].qty
  }

  /** What the lots pay, all of them or the partial ones only: each its quantity times the
      move in the position's favour, less the fee. */
  function Paid(p: Pos, lots: seq<Lot>, partialOnly: bool): real {
    if lots == [] then 0.0
    else
      var last := lots[|lots| - 1];
      Paid(p, lots[..|lots| - 1], partialOnly)
      + if partialOnly && !last.partial then 0.0
        else last.qty * (if p.side == Long then last.price - p.entry else p.entry - last.price)
             - 0.0004 * last.qty * last.price
  }

  lemma PayoutWritten(p: Pos, price: real, qty: real)
    ensures Payout(p, price, qty) ==
            qty * (if p.side == Long then price - p.entry else p.entry - price) - 0.0004 * qty * price
  {
    var move := if p.side == Long then price - p.entry else p.entry - price;
    assert Gain(p, price) == move;
    assert qty * price * FEE_RATE == 0.0004 * qty * price;
  }

  /** A partial close at a share, in quantities and prices. */
  lemma ClosePartWritten(p: Pos, price: real, share: real)
    requires p.isOpen
    ensures
      var s, all, q := ClosePart(p, price, share), p.remaining, p.remaining * share;
      var move := if p.side == Long then price - p.entry else p.entry - price;
      var gone := if q <= 0.0 then 0.0 else if all - q <= 0.0001 then all else q;
      && s.cash == gone * move - 0.0004 * gone * price
      && s.pos.remaining == all - gone && (s.pos.isOpen <==> q <= 0.0 || all - q > 0.0001)
      && s.pos.partialPnl == p.partialPnl + if q <= 0.0 then 0.0 else q * move - 0.0004 * q * price
  {
    hide Payout;
    var q := p.remaining * share;
    assert Portion(p, share) == q;
    var net := Payout(p, price, q);
    var p' := p.(remaining := p.remaining - q, partialPnl := p.partialPnl + net);
    PayoutWritten(p, price, q);
    PayoutWritten(p, price, p.remaining);
    PayoutAdds(p, price, q, p.remaining - q);
    SamePayout(p, p', price, p.remaining - q);
  }

  /** Payouts depend on the side and the entry price alone. */
  lemma SamePayout(p: Pos, p': Pos, price: real, qty: real)
    requires p.side == p'.side && p.entry == p'.entry
    ensures Payout(p', price, qty) == Payout(p, price, qty)
  {
  }

  predicate AllPositive(lots: seq<Lot>) {
    forall k :: 0 <= k < |lots| ==> lots[k].qty > 0.0
  }

  /** The lots make up all that left the position, all the cash, and all the partial PnL. */
  predicate Accounts(p: Pos, s: Step) {
    && p.remaining == s.pos.remaining + Quantity(s.lots)
    && s.cash == Paid(p, s.lots, false)
    && s.pos.partialPnl == p.partialPnl + Paid(p, s.lots, true)
  }

  lemma OneLot(p: Pos, l: Lot)
    ensures Quantity([l]) == l.qty
    ensures Paid(p, [l], false) == Payout(p, l.price, l.qty)
    ensures Paid(p, [l], true) == if l.partial then Payout(p, l.price, l.qty) else 0.0
  {
    assert [l][..0] == [];
  }

  lemma {:induction false} LotsJoin(p: Pos, a: seq<Lot>, b: seq<Lot>, partialOnly: bool)
    ensures Quantity(a + b) == Quantity(a) + Quantity(b)
    ensures Paid(p, a + b, partialOnly) == Paid(p, a, partialOnly) + Paid(p, b, partialOnly)
    decreases |b|
  {
    hide Payout;
    if b == [] {
      assert a + b == a;
    } else {
      assert (a + b)[..|a + b| - 1] == a + b[..|b| - 1];
      LotsJoin(p, a, b[..|b| - 1], partialOnly);
    }
  }

  /** Payouts depend on the side and the entry price alone. */
  lemma {:induction false} SamePaid(p: Pos, p': Pos, lots: seq<Lot>, partialOnly: bool)
    requires p.side == p'.side && p.entry == p'.entry
    ensures Paid(p', lots, partialOnly) == Paid(p, lots, partialOnly)
    decreases |lots|
  {
    if lots != [] {
      SamePaid(p, p', lots[..|lots| - 1], partialOnly);
    }
  }

  lemma CloseAllAccounts(p: Pos, price: real)
    ensures Accounts(p, CloseAll(p, price))
  {
    hide Payout;
    OneLot(p, Lot(price, p.remaining, false));
  }

  lemma NothingClosed(p: Pos)
    ensures Accounts(p, Step(p, 0.0, []))
  {
  }

  /** Two accounted steps in a row are one. */
  lemma AccountsAdd(p: Pos, s: Step, u: Step)
    requires Accounts(p, s) && Accounts(s.pos, u) && s.pos.side == p.side && s.pos.entry == p.entry
    ensures Accounts(p, Step(u.pos, s.cash + u.cash, s.lots + u.lots))
  {
    SamePaid(s.pos, p, u.lots, false);
    SamePaid(s.pos, p, u.lots, true);
    LotsJoin(p, s.lots, u.lots, false);
    LotsJoin(p, s.lots, u.lots, true);
  }

  lemma ClosePartAccounts(p: Pos, price: real, share: real)
    ensures Accounts(p, ClosePart(p, price, share))
  {
    hide Payout, Accounts, Portion;
    var qty := Portion(p, share);
    if qty <= 0.0 {
      NothingClosed(p);
    } else {
      var slice := Lot(price, qty, true);
      var p' := p.(remaining := p.remaining - qty, partialPnl := p.partialPnl + Payout(p, price, qty));
      SliceAccounts(p, price, qty);
      CloseAllAccounts(p', price);
      if p'.remaining <= DUST {
        AccountsAdd(p, Step(p', Payout(p, price, qty), [slice]), CloseAll(p', price));
      }
    }
  }

  lemma SliceAccounts(p: Pos, price: real, qty: real)
    ensures
      var net := Payout(p, price, qty);
      Accounts(p, Step(p.(remaining := p.remaining - qty, partialPnl := p.partialPnl + net), net,
                       [Lot(price, qty, true)]))
  {
    hide Payout;
    OneLot(p, Lot(price, qty, true));
  }

  predicate AllAt(lots: seq<Lot>, price: real) {
    forall k :: 0 <= k < |lots| ==> lots[k].price == price
  }

  lemma HalfLots(p: Pos, price: real)
    ensures AllAt(ClosePart(p, price, 0.5).lots, price)
    ensures p.remaining > 0.0 ==> AllPositive(ClosePart(p, price, 0.5).lots)
  {
    hide Payout, Portion;
    if p.remaining > 0.0 {
      HalfLeaves(p);
    }
  }

  lemma HalfLeaves(p: Pos)
    requires p.remaining > 0.0
    ensures 0.0 < Portion(p, 0.5) < p.remaining
  {
  }

  /** A step seen from a position that differs only in what the lots do not depend on. */
  lemma AccountsFrom(p: Pos, m: Pos, s: Step)
    requires m.side == p.side && m.entry == p.entry && m.remaining == p.remaining && m.partialPnl == p.partialPnl
    requires Accounts(m, s)
    ensures Accounts(p, s)
  {
    SamePaid(m, p, s.lots, false);
    SamePaid(m, p, s.lots, true);
  }

  lemma ExitAccounts(p: Pos, price: real, ema: Option<real>)
    requires Laddered(p)
    ensures Accounts(p, ExitPlaybook(p, price, ema))
  {
    hide ClosePart, TrailingHit, AnyTargetReached, Reached, Accounts;
    NothingClosed(p);
    CloseAllAccounts(p, price);
    if p.swing {
      var first := p.(targets := p.targets[0 := p.targets[0].(hit := true)]);
      var second := p.(targets := p.targets[1 := p.targets[1].(hit := true)]);
      ClosePartAccounts(first, price, 0.5);
      ClosePartAccounts(second, price, 0.5);
      AccountsFrom(p, first, ClosePart(first, price, 0.5));
      AccountsFrom(p, second, ClosePart(second, price, 0.5));
      AccountsTo(p, ClosePart(first, price, 0.5), TakeFirst(p, price));
      AccountsTo(p, ClosePart(second, price, 0.5), TakeSecond(p, price));
    }
  }

  lemma ExitLots(p: Pos, price: real, ema: Option<real>)
    requires Laddered(p)
    ensures AllAt(ExitPlaybook(p, price, ema).lots, price)
    ensures p.remaining > 0.0 ==> AllPositive(ExitPlaybook(p, price, ema).lots)
  {
    hide ClosePart, TrailingHit, AnyTargetReached, Reached, Payout;
    if p.swing {
      HalfLots(p.(targets := p.targets[0 := p.targets[0].(hit := true)]), price);
      HalfLots(p.(targets := p.targets[1 := p.targets[1].(hit := true)]), price);
    }
  }

  /** Moving the stop or arming the trail changes no account. */
  lemma AccountsTo(p: Pos, s: Step, s': Step)
    requires Accounts(p, s) && s'.cash == s.cash && s'.lots == s.lots
    requires s'.pos.remaining == s.pos.remaining && s'.pos.partialPnl == s.pos.partialPnl
    ensures Accounts(p, s')
  {
  }

  /** Every update accounts for what it closes. */
  lemma UpdateAccounts(p: Pos, price: real, now: int, ema: Option<real>)
    requires Laddered(p)
    ensures Accounts(p, Update(p, price, now, ema))
  {
    hide ExitPlaybook, CloseAll, Catastrophic, TimedOut, StopHit, Accounts, Gain;
    NothingClosed(p);
    if p.isOpen && price > 0.0 {
      var m := Mark(p, price);
      ExitAccounts(m, price, ema);
      CloseAllAccounts(m, price);
      AccountsFrom(p, m, ExitPlaybook(m, price, ema));
      AccountsFrom(p, m, CloseAll(m, price));
    }
  }

  /** It closes at the price of the update, and from a sane position never an empty lot. */
  lemma UpdateLots(p: Pos, price: real, now: int, ema: Option<real>)
    requires Laddered(p)
    ensures AllAt(Update(p, price, now, ema).lots, price)
    ensures Sane(p) ==> AllPositive(Update(p, price, now, ema).lots)
  {
    hide ExitPlaybook, Catastrophic, TimedOut, StopHit, Gain, RightStop, Payout;
    if p.isOpen && price > 0.0 {
      ExitLots(Mark(p, price), price, ema);
    }
  }

  /** Lots at one price pay what their sum would. */
  lemma {:induction false} PaidAtOnePrice(p: Pos, lots: seq<Lot>, price: real)
    requires AllAt(lots, price)
    ensures Paid(p, lots, false) == Payout(p, price, Quantity(lots))
    decreases |lots|
  {
    if lots != [] {
      var rest, last := lots[..|lots| - 1], lots[|lots| - 1];
      PaidAtOnePrice(p, rest, price);
      PayoutAdds(p, price, Quantity(rest), last.qty);
    }
  }

  lemma PayoutAdds(p: Pos, price: real, a: real, b: real)
    ensures Payout(p, price, a + b) == Payout(p, price, a) + Payout(p, price, b)
  {
    var g := Gain(p, price);
    assert g * (a + b) == g * a + g * b;
    assert (a + b) * price * FEE_RATE == a * price * FEE_RATE + b * price * FEE_RATE;
  }

  /** So its cash is exactly what the quantity by which the position shrank is worth at the
      price of the update, less the fee on it. */
  lemma UpdatePaysForWhatLeaves(p: Pos, price: real, now: int, ema: Option<real>)
    requires Laddered(p)
    ensures
      var s := Update(p, price, now, ema);
      var qty := p.remaining - s.pos.remaining;
      s.cash == qty * (if p.side == Long then price - p.entry else p.entry - price) - 0.0004 * qty * price
  {
    hide Update, Payout, Quantity, Paid, AllAt;
    var s := Update(p, price, now, ema);
    UpdateAccounts(p, price, now, ema);
    UpdateLots(p, price, now, ema);
    PaidAtOnePrice(p, s.lots, price);
    assert Quantity(s.lots) == p.remaining - s.pos.remaining;
    PayoutWritten(p, price, p.remaining - s.pos.remaining);
  }

  // ----- what an update does, in prices -----

  predicate Passes(p: Pos, level: real, price: real) {
    if p.side == Long then price >= level else price <= level
  }

  /** Stopped out: more than half the margin lost, held too long, or the stop crossed. */
  predicate StoppedOut(p: Pos, price: real, now: int) {
    var move := if p.side == Long then price - p.entry else p.entry - price;
    || p.remaining * move < -0.5 * (p.remaining * price / p.leverage)
    || (now - p.openTime) as real >= p.timeStopHours * 3600000.0
    || (if p.side == Long then price <= p.stop else price >= p.stop)
  }

  /** The trail is armed, and the price is on the wrong side of an average there is. */
  predicate TrailedOut(p: Pos, price: real, ema: Option<real>) {
    p.trailing && ema.Some? && ema.value != 0.0 && if p.side == Long then price < ema.value else price > ema.value
  }

  datatype Event = Out | First | Second | Kept

  /** What a quote comes to for an open position: the stops before the targets, the first
      target before the second, the trail last. */
  function EventOf(p: Pos, price: real, now: int, ema: Option<real>): Event
    requires Laddered(p)
  {
    if StoppedOut(p, price, now) then Out
    else if !p.swing then
      (if exists k :: 0 <= k < |p.targets| && !p.targets[k].hit && Passes(p, p.targets[k].price, price)
       then Out else Kept)
    else if !p.targets[0].hit && Passes(p, p.targets[0].price, price) then First
    else if !p.targets[1].hit && Passes(p, p.targets[1].price, price) then Second
    else if TrailedOut(p, price, ema) then Out
    else Kept
  }

  /** The remainder after half of it is closed: dust goes too. */
  function HalfLeft(x: real): real {
    if x / 2.0 <= 0.0001 then 0.0 else x / 2.0
  }

  /** What an event leaves of a position p. */
  predicate Leaves(p: Pos, e: Event, p': Pos) {
    && p'.remaining == (match e case Out => 0.0 case Kept => p.remaining case _ => HalfLeft(p.remaining))
    && (p'.isOpen <==> p'.remaining > 0.0)
    && p'.stop == (if e == First then p.entry else p.stop)
    && p'.trailing == (p.trailing || e == Second)
    && p'.targets == (if e == First && |p.targets| > 0 then p.targets[0 := p.targets[0].(hit := true)]
                      else if e == Second && |p.targets| > 1 then p.targets[1 := p.targets[1].(hit := true)]
                      else p.targets)
  }

  lemma ExitWritten(p: Pos, price: real, now: int, ema: Option<real>)
    requires Laddered(p) && p.isOpen && p.remaining > 0.0 && !StoppedOut(p, price, now)
    ensures
      var p' := ExitPlaybook(p, price, ema).pos;
      && Leaves(p, EventOf(p, price, now, ema), p')
      && p'.notional == p.notional && p'.marginUsed == p.marginUsed && p'.unrealized == p.unrealized
  {
    hide ClosePart, TrailingHit, TrailedOut, Payout, HalfLeft, StoppedOut;
    TrailWritten(p, price, ema);
    if p.swing {
      HalfWritten(p.(targets := p.targets[0 := p.targets[0].(hit := true)]), price);
      HalfWritten(p.(targets := p.targets[1 := p.targets[1].(hit := true)]), price);
    }
  }

  lemma SameEvent(p: Pos, price: real, now: int, ema: Option<real>)
    requires Laddered(p)
    ensures EventOf(Mark(p, price), price, now, ema) == EventOf(p, price, now, ema)
    ensures StoppedOut(Mark(p, price), price, now) == StoppedOut(p, price, now)
  {
    hide Gain;
    assert StoppedOut(Mark(p, price), price, now) == StoppedOut(p, price, now);
    hide StoppedOut;
  }

  lemma StopsWritten(p: Pos, price: real, now: int)
    ensures StoppedOut(p, price, now) <==>
            var m := Mark(p, price); Catastrophic(m) || TimedOut(m, now) || StopHit(m, price)
  {
    hide Catastrophic, TimedOut, StopHit;
    LossWritten(p, price);
    TimeWritten(Mark(p, price), now);
    StopWritten(p, price);
    SameStop(p, price);
  }

  /** What an update leaves of an open position. */
  lemma UpdateWritten(p: Pos, price: real, now: int, ema: Option<real>)
    requires Laddered(p) && p.isOpen && p.remaining > 0.0 && price > 0.0
    ensures
      var p' := Update(p, price, now, ema).pos;
      && Leaves(p, EventOf(p, price, now, ema), p')
      && p'.notional == p.remaining * price && p'.marginUsed * p.leverage == p.remaining * price
      && p'.unrealized == p.remaining * (if p.side == Long then price - p.entry else p.entry - price)
  {
    var m := Mark(p, price);
    MarkWritten(p, price);
    StopsWritten(p, price, now);
    SameEvent(p, price, now, ema);
    hide ExitPlaybook, StoppedOut, Catastrophic, TimedOut, StopHit, Payout, Gain, HalfLeft;
    if !StoppedOut(p, price, now) {
      ExitWritten(m, price, now, ema);
      hide EventOf;
    }
  }

  lemma TrailWritten(p: Pos, price: real, ema: Option<real>)
    ensures TrailingHit(p, price, ema) <==> TrailedOut(p, price, ema)
  {
  }

  lemma MarkWritten(p: Pos, price: real)
    ensures
      var m := Mark(p, price);
      && m.notional == p.remaining * price && m.marginUsed * p.leverage == p.remaining * price
      && m.unrealized == p.remaining * (if p.side == Long then price - p.entry else p.entry - price)
  {
  }

  lemma HalfWritten(p: Pos, price: real)
    requires p.isOpen && p.remaining > 0.0
    ensures
      var p' := ClosePart(p, price, 0.5).pos;
      && p' == p.(remaining := p'.remaining, partialPnl := p'.partialPnl, isOpen := p'.isOpen)
      && p'.remaining == HalfLeft(p.remaining) && (p'.isOpen <==> p'.remaining > 0.0)
  {
    hide Payout;
  }

  // ----- whole lives -----

  datatype Quote = Quote(price: real, now: int, ema: Option<real>)

  /** A position after a series of updates, all the cash it paid and all the lots it closed. */
  function Live(p: Pos, qs: seq<Quote>): (r: Step)
    requires Laddered(p)
    ensures Laddered(r.pos)
  {
    if qs == [] then Step(p, 0.0, [])
    else
      var s, q := Live(p, qs[..|qs| - 1]), qs[|qs| - 1];
      var u := Update(s.pos, q.price, q.now, q.ema);
      UpdateKeepsLadder(s.pos, q.price, q.now, q.ema);
      Step(u.pos, s.cash + u.cash, s.lots + u.lots)
  }

  /** Over any series of prices size and stop stay right, and the second target never comes
      first on an ordered ladder. */
  lemma {:induction false} LifeIsSane(p: Pos, qs: seq<Quote>)
    requires Sane(p)
    ensures Sane(Live(p, qs).pos)
    ensures LadderOrdered(p) && FirstBeforeSecond(p) ==>
            LadderOrdered(Live(p, qs).pos) && FirstBeforeSecond(Live(p, qs).pos)
    decreases |qs|
  {
    hide Update, RightSize, RightStop;
    if qs != [] {
      var p', q := Live(p, qs[..|qs| - 1]).pos, qs[|qs| - 1];
      LifeIsSane(p, qs[..|qs| - 1]);
      UpdateSane(p', q.price, q.now, q.ema);
      UpdateKeepsLadder(p', q.price, q.now, q.ema);
      if LadderOrdered(p) && FirstBeforeSecond(p) {
        SecondNeedsFirst(p', q.price, q.now, q.ema);
      }
    }
  }

  /** Over any series of prices the lots closed make up everything: the quantity that left,
      the cash paid and the partial PnL; and each of them is a real quantity. */
  lemma {:induction false} LifeAccounts(p: Pos, qs: seq<Quote>)
    requires Sane(p)
    ensures Accounts(p, Live(p, qs)) && AllPositive(Live(p, qs).lots)
    ensures Live(p, qs).pos.side == p.side && Live(p, qs).pos.entry == p.entry
    ensures Live(p, qs).pos.original == p.original
    decreases |qs|
  {
    hide Accounts, Update, RightSize, RightStop;
    if qs == [] {
      NothingClosed(p);
    } else {
      var s, q := Live(p, qs[..|qs| - 1]), qs[|qs| - 1];
      LifeAccounts(p, qs[..|qs| - 1]);
      LifeIsSane(p, qs[..|qs| - 1]);
      UpdateAccounts(s.pos, q.price, q.now, q.ema);
      UpdateLots(s.pos, q.price, q.now, q.ema);
      UpdateKeepsIdentity(s.pos, q.price, q.now, q.ema);
      AccountsAdd(p, s, Update(s.pos, q.price, q.now, q.ema));
    }
  }

  /** What has left the position by the k-th quote is valued at that quote, quote by quote. */
  function Earned(p: Pos, qs: seq<Quote>): real
    requires Laddered(p)
  {
    if qs == [] then 0.0
    else
      var price := qs[|qs| - 1].price;
      var qty := Live(p, qs[..|qs| - 1]).pos.remaining - Live(p, qs).pos.remaining;
      Earned(p, qs[..|qs| - 1])
      + qty * (if p.side == Long then price - p.entry else p.entry - price) - 0.0004 * qty * price
  }

  /** The cash of a life is that sum. */
  lemma {:induction false} LifePays(p: Pos, qs: seq<Quote>)
    requires Laddered(p)
    ensures Live(p, qs).cash == Earned(p, qs)
    ensures Live(p, qs).pos.side == p.side && Live(p, qs).pos.entry == p.entry
    decreases |qs|
  {
    hide Update;
    if qs != [] {
      var p', q := Live(p, qs[..|qs| - 1]).pos, qs[|qs| - 1];
      LifePays(p, qs[..|qs| - 1]);
      UpdatePaysForWhatLeaves(p', q.price, q.now, q.ema);
      UpdateKeepsIdentity(p', q.price, q.now, q.ema);
    }
  }

  /** What was opened is what remains and what was closed; a closed position has closed
      exactly its original quantity. */
  lemma QuantityConserved(p: Pos, qs: seq<Quote>)
    requires Sane(p) && p.isOpen && Hits(p) == 0
    ensures p.original == Live(p, qs).pos.remaining + Quantity(Live(p, qs).lots)
    ensures !Live(p, qs).pos.isOpen ==> p.original == Quantity(Live(p, qs).lots)
  {
    hide Live, Quantity, Paid;
    LifeAccounts(p, qs);
    LifeIsSane(p, qs);
  }

  lemma UpdateKeepsIdentity(p: Pos, price: real, now: int, ema: Option<real>)
    requires Laddered(p)
    ensures
      var p' := Update(p, price, now, ema).pos;
      p'.side == p.side && p'.entry == p.entry && p'.symbol == p.symbol && p'.original == p.original
  {
    hide ClosePart, Gain, Catastrophic, TimedOut, StopHit, TrailingHit, AnyTargetReached, Reached, Payout;
    if p.swing {
      var m := Mark(p, price);
      ClosePartKeeps(m.(targets := m.targets[0 := m.targets[0].(hit := true)]), price, 0.5);
      ClosePartKeeps(m.(targets := m.targets[1 := m.targets[1].(hit := true)]), price, 0.5);
    }
  }
}
