/** Risk-based quantity and the bump to the smallest quantity the venue accepts. */
module LotSizing {
  import opened Wrappers
  import opened Reals

  datatype Venue = Venue(minNotional: real, minQuantity: real, increment: real)

  predicate Legal(v: Venue, price: real, qty: real) {
    qty >= v.minQuantity && qty * price >= v.minNotional
  }

  /** Budget over stop distance; without a stop there is no size. */
  function RiskQuantity(budget: real, stopDistance: real): Option<real> {
    if stopDistance > 0.0 then Some(budget / stopDistance) else None
  }

  /** What the trade loses at its stop is the budget. */
  lemma RiskQuantityLosesBudget(budget: real, stopDistance: real)
    requires stopDistance > 0.0
    ensures RiskQuantity(budget, stopDistance).value * stopDistance == budget
  {
  }

  /** Rounded away from zero to a whole number. */
  function RoundUp(x: real): int {
    if x >= 0.0 then Ceiling(x) else x.Floor
  }

  /** The quantity the minimum notional asks for, as decimal division returns it. */
  function Quotient(v: Venue, price: real, round: real -> real): real {
    if price > 0.0 then round(v.minNotional / price) else v.minQuantity
  }

  /** Where the bump starts: the larger minimum, on the grid when there is one. */
  function FirstTry(v: Venue, price: real, round: real -> real): real {
    var target := Max(Quotient(v, price, round), v.minQuantity);
    if v.increment > 0.0 then Lot(v, RoundUp(target / v.increment)) else target
  }

  function Lot(v: Venue, n: int): real {
    n as real * v.increment
  }

  /** One turn of the guard loop. */
  function Grow(v: Venue, qty: real): real {
    if v.increment > 0.0 then qty + v.increment else qty + (v.minQuantity - qty)
  }

  function Grown(v: Venue, qty: real, turns: nat): real {
    if turns == 0 then qty else Grow(v, Grown(v, qty, turns - 1))
  }

  /** How many turns take qty to a level. */
  function TurnsTo(v: Venue, level: real, qty: real): nat
    requires v.increment > 0.0
  {
    var n := Ceiling((level - qty) / v.increment);
    if n > 0 then n else 0
  }

  /** When the loop can end at all: on a grid always, unless the price is not positive, when
      only the first quantity past the minimum can do; off it, at once or at the minimum. */
  predicate BumpEnds(v: Venue, price: real, start: real) {
    if v.increment > 0.0
    then price > 0.0 || Legal(v, price, start + Lot(v, TurnsTo(v, v.minQuantity, start)))
    else Legal(v, price, start) || Legal(v, price, v.minQuantity)
  }

  // ----- the grid -----

  lemma {:induction false} GrownOnGrid(v: Venue, qty: real, turns: nat)
    requires v.increment > 0.0
    ensures Grown(v, qty, turns) == qty + Lot(v, turns)
  {
    if turns > 0 {
      GrownOnGrid(v, qty, turns - 1);
    }
  }

  lemma LotsAscend(v: Venue, a: int, b: int)
    requires v.increment > 0.0
    ensures a < b <==> Lot(v, a) < Lot(v, b)
  {
    assert a < b ==> a as real * v.increment < b as real * v.increment;
    assert a >= b ==> a as real * v.increment >= b as real * v.increment;
  }

  /** A whole number of increments reaches x exactly from the ceiling of the quotient on. */
  lemma LotReaches(v: Venue, x: real, n: int)
    requires v.increment > 0.0
    ensures Lot(v, n) >= x <==> n >= Ceiling(x / v.increment)
  {
    var q := x / v.increment;
    assert q * v.increment == x;
    assert n as real >= q ==> n as real * v.increment >= q * v.increment;
    assert n as real < q ==> n as real * v.increment < q * v.increment;
  }

  lemma TurnsReach(v: Venue, level: real, qty: real, k: nat)
    requires v.increment > 0.0
    ensures qty + Lot(v, k) >= level <==> k >= TurnsTo(v, level, qty)
  {
    hide Ceiling, Lot;
    LotReaches(v, level - qty, k);
  }

  // ----- when the loop ends -----

  /** The level both minima ask for. */
  function Needed(v: Venue, price: Positive): real {
    Max(v.minNotional / price, v.minQuantity)
  }

  lemma LegalIffNeeded(v: Venue, price: Positive, qty: real)
    ensures Legal(v, price, qty) <==> qty >= Needed(v, price)
  {
    var need := v.minNotional / price;
    assert need * price == v.minNotional;
    assert qty >= need ==> qty * price >= need * price;
    assert qty < need ==> qty * price < need * price;
  }

  /** The turn by which the loop has ended, if it ever does. */
  function LastTurn(v: Venue, price: real, start: real): nat {
    if v.increment <= 0.0 then 1
    else if price > 0.0 then TurnsTo(v, Needed(v, price), start)
    else TurnsTo(v, v.minQuantity, start)
  }

  lemma LessIsNoLegaler(v: Venue, price: real, a: real, b: real)
    requires price <= 0.0 && a <= b && a >= v.minQuantity && Legal(v, price, b)
    ensures Legal(v, price, a)
  {
    assert a * price >= b * price;
  }

  /** If any turn is legal the loop ends. */
  lemma LegalTurn(v: Venue, price: real, start: real, k: nat)
    requires Legal(v, price, Grown(v, start, k))
    ensures BumpEnds(v, price, start)
  {
    hide Legal, TurnsTo, Lot;
    if v.increment > 0.0 && price <= 0.0 {
      var first := TurnsTo(v, v.minQuantity, start);
      GrownOnGrid(v, start, k);
      LegalPastMinimum(v, price, start + Lot(v, k));
      TurnsReach(v, v.minQuantity, start, k);
      TurnsReach(v, v.minQuantity, start, first);
      LotsAscend(v, k, first);
      LessIsNoLegaler(v, price, start + Lot(v, first), start + Lot(v, k));
    }
  }

  lemma LegalPastMinimum(v: Venue, price: real, qty: real)
    requires Legal(v, price, qty)
    ensures qty >= v.minQuantity
  {
  }

  lemma LastTurnLegal(v: Venue, price: real, start: real)
    requires BumpEnds(v, price, start)
    ensures Legal(v, price, start) || Legal(v, price, Grown(v, start, LastTurn(v, price, start)))
  {
    hide Legal, TurnsTo, Lot, Needed;
    var last := LastTurn(v, price, start);
    if v.increment > 0.0 {
      GrownOnGrid(v, start, last);
      if price > 0.0 {
        TurnsReach(v, Needed(v, price), start, last);
        LegalIffNeeded(v, price, start + Lot(v, last));
      }
    }
  }

  /** The loop ends if and only if BumpEnds says so. */
  lemma BumpEndsIff(v: Venue, price: real, start: real)
    ensures BumpEnds(v, price, start) <==> exists k: nat :: Legal(v, price, Grown(v, start, k))
  {
    hide Legal, BumpEnds, LastTurn;
    if BumpEnds(v, price, start) {
      LastTurnLegal(v, price, start);
      assert Grown(v, start, 0) == start;
    }
    if k: nat :| Legal(v, price, Grown(v, start, k)) {
      LegalTurn(v, price, start, k);
    }
  }

  /** Off the grid it may not: at a price of 3 a minimum notional of 100 is missed by the
      28-digit quotient, and the loop then stays at a minimum quantity of 0 for ever. */
  lemma OffGridNeverEnds(round: real -> real, k: nat)
    requires round(100.0 / 3.0) == 33.33333333333333333333333333
    ensures
      var v := Venue(100.0, 0.0, 0.0);
      !Legal(v, 3.0, Grown(v, FirstTry(v, 3.0, round), k))
  {
  }

  // ----- the loop -----

  /** After `turns` turns the quantity is legal for the first time. */
  ghost predicate FirstLegal(v: Venue, price: real, start: real, turns: nat) {
    && Legal(v, price, Grown(v, start, turns))
    && forall k: nat :: k < turns ==> !Legal(v, price, Grown(v, start, k))
  }

  /** The quantity the bump arrives at. */
  ghost predicate IsBump(v: Venue, price: real, round: real -> real, qty: real) {
    var start := FirstTry(v, price, round);
    exists turns: nat :: qty == Grown(v, start, turns) && FirstLegal(v, price, start, turns)
  }

  lemma BumpUnique(v: Venue, price: real, round: real -> real, a: real, b: real)
    requires IsBump(v, price, round, a) && IsBump(v, price, round, b)
    ensures a == b
  {
    hide Legal, Grown, FirstTry;
    var start := FirstTry(v, price, round);
    var j: nat :| a == Grown(v, start, j) && FirstLegal(v, price, start, j);
    var k: nat :| b == Grown(v, start, k) && FirstLegal(v, price, start, k);
    assert j == k;
  }

  method Bump(v: Venue, price: real, round: real -> real) returns (qty: real)
    requires BumpEnds(v, price, FirstTry(v, price, round))
    ensures IsBump(v, price, round, qty)
    ensures qty >= v.minQuantity && qty * price >= v.minNotional
  {
    hide FirstTry, BumpEnds, LastTurn;
    var start := FirstTry(v, price, round);
    qty := start;
    ghost var turns: nat := 0;
    ghost var last := LastTurn(v, price, start);
    while qty < v.minQuantity || qty * price < v.minNotional
      invariant qty == Grown(v, start, turns)
      invariant turns <= last
      invariant forall k: nat :: k < turns ==> !Legal(v, price, Grown(v, start, k))
      decreases last - turns
    {
      assert !Legal(v, price, Grown(v, start, turns));
      assert turns == 0 || !Legal(v, price, Grown(v, start, 0));
      LastTurnLegal(v, price, start);
      qty := if v.increment > 0.0 then qty + v.increment else qty + (v.minQuantity - qty);
      turns := turns + 1;
    }
    assert FirstLegal(v, price, start, turns);
  }

  // ----- what the bumped lot is -----

  /** The number of increments both minima ask for. */
  function LeastNumber(v: Venue, price: Positive): int
    requires v.increment > 0.0
  {
    Ceiling(Needed(v, price) / v.increment)
  }

  /** A lot is legal exactly from that number on. */
  lemma LegalLots(v: Venue, price: Positive, n: int)
    requires v.increment > 0.0
    ensures Legal(v, price, Lot(v, n)) <==> n >= LeastNumber(v, price)
  {
    hide Legal, Ceiling, Lot, Needed;
    LegalIffNeeded(v, price, Lot(v, n));
    LotReaches(v, Needed(v, price), n);
  }

  /** The number of increments the bump starts from. */
  function StartNumber(v: Venue, price: real, round: real -> real): int
    requires v.increment > 0.0
  {
    RoundUp(Max(Quotient(v, price, round), v.minQuantity) / v.increment)
  }

  /** The bump starts from the larger of the two minima, the quotient as it was rounded;
      on the grid, from the next multiple of the increment away from zero. */
  lemma StartWritten(v: Venue, price: real, round: real -> real)
    ensures
      var quotient := if price > 0.0 then round(v.minNotional / price) else v.minQuantity;
      var target, start := if quotient > v.minQuantity then quotient else v.minQuantity, FirstTry(v, price, round);
      && (v.increment <= 0.0 ==> start == target)
      && (v.increment > 0.0 ==>
            && start == Lot(v, StartNumber(v, price, round))
            && (target >= 0.0 ==> target <= start < target + v.increment)
            && (target < 0.0 ==> target - v.increment < start <= target))
  {
    if v.increment > 0.0 {
      var target := Max(Quotient(v, price, round), v.minQuantity);
      NextMultiple(v, target, RoundUp(target / v.increment));
    }
  }

  lemma NextMultiple(v: Venue, x: real, n: int)
    requires v.increment > 0.0 && n == RoundUp(x / v.increment)
    ensures x >= 0.0 ==> x <= Lot(v, n) < x + v.increment
    ensures x < 0.0 ==> x - v.increment < Lot(v, n) <= x
  {
    var q, lot := x / v.increment, Lot(v, n);
    assert q * v.increment == x;
    assert x >= 0.0 <==> q >= 0.0;
    assert if q >= 0.0 then q <= n as real < q + 1.0 else q - 1.0 < n as real <= q;
    hide RoundUp, Lot;
    if q >= 0.0 {
      Scaled(q, n as real, v.increment, x, lot);
    } else {
      Scaled(n as real, q, v.increment, lot, x);
    }
  }

  lemma Scaled(a: real, b: real, inc: real, x: real, y: real)
    requires a <= b < a + 1.0 && inc > 0.0 && x == a * inc && y == b * inc
    ensures x <= y < x + inc
  {
    var d := b - a;
    var more := d * inc;
    assert y == x + more;
    assert more >= 0.0;
    assert d < 1.0 ==> more < inc;
  }

  lemma GridPoint(v: Venue, price: real, round: real -> real, turns: nat)
    requires v.increment > 0.0
    ensures Grown(v, FirstTry(v, price, round), turns) == Lot(v, StartNumber(v, price, round) + turns)
  {
    hide RoundUp, Max, Quotient;
    GrownOnGrid(v, FirstTry(v, price, round), turns);
  }

  /** However the division rounds, the bump returns the larger of the least legal lot and the
      one it started from. */
  lemma BumpIsLarger(v: Venue, price: Positive, round: real -> real, qty: real)
    requires v.increment > 0.0 && IsBump(v, price, round, qty)
    ensures
      var least, start := LeastNumber(v, price), StartNumber(v, price, round);
      qty == Lot(v, if start <= least then least else start)
  {
    hide Legal, Grown, FirstTry, StartNumber, LeastNumber, Lot;
    var start := FirstTry(v, price, round);
    var turns: nat :| qty == Grown(v, start, turns) && FirstLegal(v, price, start, turns);
    var a := StartNumber(v, price, round);
    GridPoint(v, price, round, turns);
    LegalLots(v, price, a + turns);
    if turns > 0 {
      GridPoint(v, price, round, turns - 1);
      LegalLots(v, price, a + turns - 1);
      assert !Legal(v, price, Grown(v, start, turns - 1));
    }
  }

  /** So it returns the least legal lot if and only if the start is not past it. */
  lemma BumpLeastIff(v: Venue, price: Positive, round: real -> real, qty: real)
    requires v.increment > 0.0 && IsBump(v, price, round, qty)
    ensures qty == Lot(v, LeastNumber(v, price)) <==> StartNumber(v, price, round) <= LeastNumber(v, price)
  {
    hide StartNumber, LeastNumber, Lot, IsBump;
    BumpIsLarger(v, price, round, qty);
    LotsAscend(v, LeastNumber(v, price), StartNumber(v, price, round));
  }

  ghost predicate Monotone(round: real -> real) {
    forall x, y {:trigger round(x), round(y)} :: x <= y ==> round(x) <= round(y)
  }

  /** Decimal rounding is monotone and leaves a number it can hold alone: as long as it can
      hold the least legal lot, the bump returns that lot, whichever way the division rounded. */
  lemma BumpIsLeast(v: Venue, price: Positive, round: real -> real, qty: real)
    requires v.increment > 0.0 && IsBump(v, price, round, qty)
    requires Monotone(round) && round(Lot(v, LeastNumber(v, price))) == Lot(v, LeastNumber(v, price))
    ensures qty == Lot(v, LeastNumber(v, price))
    ensures forall n :: Legal(v, price, Lot(v, n)) ==> n >= LeastNumber(v, price)
    ensures Legal(v, price, qty)
  {
    hide Legal, Lot, IsBump, LeastNumber;
    var least := LeastNumber(v, price);
    LegalLots(v, price, least);
    LegalIffNeeded(v, price, Lot(v, least));
    assert round(v.minNotional / price) <= round(Lot(v, least));
    var target := Max(Quotient(v, price, round), v.minQuantity);
    LotReaches(v, target, least);
    BumpLeastIff(v, price, round, qty);
    forall n | Legal(v, price, Lot(v, n))
      ensures n >= least
    {
      LegalLots(v, price, n);
    }
  }

  // ----- the whole decision -----

  datatype Sized = NoStop | Unaffordable | Quantity(qty: real)

  function Margin(qty: real, price: real, leverage: int): real {
    qty * price / (if leverage > 1 then leverage else 1) as real
  }

  /** The margin is more than there is: leverage below 1 counts as 1. */
  lemma MarginOver(qty: real, price: real, leverage: int, available: real)
    ensures
      var lev := (if leverage > 1 then leverage else 1) as real;
      Margin(qty, price, leverage) > available <==> qty * price > available * lev
  {
    var lev := (if leverage > 1 then leverage else 1) as real;
    var m := Margin(qty, price, leverage);
    assert m * lev == qty * price;
    assert m > available ==> m * lev > available * lev;
    assert m <= available ==> m * lev <= available * lev;
  }

  /** The quantity that loses the budget at the stop, if the venue takes it; otherwise the
      bump, if the balance carries its margin; nothing without a stop. */
  method Size(budget: real, stopDistance: real, v: Venue, price: real, round: real -> real,
              leverage: int, available: real)
    returns (r: Sized)
    requires stopDistance > 0.0 && !Legal(v, price, budget / stopDistance) ==>
             BumpEnds(v, price, FirstTry(v, price, round))
    ensures r == NoStop <==> stopDistance <= 0.0
    ensures r.Quantity? ==> r.qty >= v.minQuantity && r.qty * price >= v.minNotional
    ensures r.Quantity? ==> r.qty * stopDistance == budget || IsBump(v, price, round, r.qty)
    ensures r.Quantity? && r.qty * stopDistance != budget ==>
            r.qty * price <= available * (if leverage > 1 then leverage else 1) as real
    ensures stopDistance > 0.0 && Legal(v, price, budget / stopDistance) ==>
            r.Quantity? && r.qty * stopDistance == budget
    ensures stopDistance > 0.0 && !Legal(v, price, budget / stopDistance) ==>
            exists lot :: IsBump(v, price, round, lot)
                          && r == if lot * price > available * (if leverage > 1 then leverage else 1) as real
                                  then Unaffordable else Quantity(lot)
  {
    hide FirstTry, IsBump, BumpEnds, Margin, Legal;
    var q := RiskQuantity(budget, stopDistance);
    if q.None? {
      return NoStop;
    }
    RiskQuantityLosesBudget(budget, stopDistance);
    if !Legal(v, price, q.value) {
      var bumped := Bump(v, price, round);
      MarginOver(bumped, price, leverage, available);
      if Margin(bumped, price, leverage) > available {
        return Unaffordable;
      }
      return Quantity(bumped);
    }
    LegalWritten(v, price, q.value);
    return Quantity(q.value);
  }

  lemma LegalWritten(v: Venue, price: real, qty: real)
    ensures Legal(v, price, qty) <==> qty >= v.minQuantity && qty * price >= v.minNotional
  {
  }
}
