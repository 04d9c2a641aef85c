/** Price series and the one notion every flag of the scanner rests on: the first
    candle, from a given index on, that fires a price trigger. */
module Candles {
  import opened Wrappers

  datatype Direction = Bullish | Bearish {
    function Opposite(): Direction {
      if Bullish? then Bearish else Bullish
    }
  }

  datatype Candle = Candle(open: real, high: real, low: real, close: real) {
    predicate WellFormed() {
      low <= open <= high && low <= close <= high
    }
  }

  predicate WellFormed(cs: seq<Candle>) {
    forall k :: 0 <= k < |cs| ==> cs[k].WellFormed()
  }

  datatype Trigger =
    | CloseAbove(level: real)
    | CloseBelow(level: real)
    | LowReaches(level: real)
    | HighReaches(level: real)

  predicate Fires(t: Trigger, c: Candle) {
    match t
    case CloseAbove(p) => c.close > p
    case CloseBelow(p) => c.close < p
    case LowReaches(p) => c.low <= p
    case HighReaches(p) => c.high >= p
  }

  /** The least index in [from, n) whose candle fires t. */
  function FirstFire(cs: seq<Candle>, t: Trigger, from: nat, n: nat): (r: Option<nat>)
    requires n <= |cs|
    ensures r.Some? ==> from <= r.value < n && Fires(t, cs[r.value])
    ensures r.Some? ==> forall k :: from <= k < r.value ==> !Fires(t, cs[k])
    ensures r.None? ==> forall k :: from <= k < n ==> !Fires(t, cs[k])
  {
    if n <= from then None
    else
      var r := FirstFire(cs, t, from, n - 1);
      if r.Some? then r else if Fires(t, cs[n - 1]) then Some(n - 1) else None
  }

  lemma {:induction false} FirstFirePrefix(cs: seq<Candle>, t: Trigger, from: nat, m: nat, n: nat)
    requires n <= m <= |cs|
    ensures FirstFire(cs[..m], t, from, n) == FirstFire(cs, t, from, n)
    decreases n
  {
  }

}
