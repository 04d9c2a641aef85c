/** Per-signal leverage: a band, hard halts, and a product of favourability factors
    rounded half to even. */
module DynamicLeverage {
  import opened Wrappers

  const SYSTEM_MAX_LEVERAGE := 10
  const TINY := 0.000000001

  datatype Band = Band(
    minLeverage: int, configuredMax: int, highVol: real, extremeVol: real,
    ddModerate: real, ddSevere: real, mrModerate: real, mrHigh: real)

  datatype Regime =
    | TrendExpansion | BreakoutEnvironment | Accumulation | MeanReversion | LowVolChop
    | DeadMarket | LiquidationEvent | HighRiskChaos | Unknown

  function RegimeFactor(g: Regime): (r: real)
    ensures 0.0 <= r <= 1.0
  {
    match g
    case TrendExpansion => 1.0
    case BreakoutEnvironment => 0.85
    case Accumulation => 0.5
    case MeanReversion => 0.25
    case LowVolChop => 0.2
    case Unknown => 0.5
    case _ => 0.0
  }

  predicate NoTrade(g: Regime) {
    g.DeadMarket? || g.LiquidationEvent? || g.HighRiskChaos?
  }

  /** One signal's conditions; no conviction means it has no say. */
  datatype Conditions = Conditions(
    base: int, venueMax: Option<int>, atrPct: real, drawdown: real, marginRatio: real,
    regime: Regime, conviction: Option<real>)

  function Min(a: int, b: int): int {
    if a < b then a else b
  }

  function BandCeiling(b: Band, q: Conditions): int {
    var bandMax := Min(b.configuredMax, SYSTEM_MAX_LEVERAGE);
    var c := Min(bandMax, if q.base == 0 then bandMax else q.base);
    if q.venueMax.Some? && q.venueMax.value != 0 then Min(c, q.venueMax.value) else c
  }

  function BandFloor(b: Band, q: Conditions): int {
    Min(b.minLeverage, BandCeiling(b, q))
  }

  predicate Halts(b: Band, q: Conditions) {
    q.atrPct >= b.extremeVol || NoTrade(q.regime)
  }

  function AtLeastTiny(x: real): real {
    if x > TINY then x else TINY
  }

  function VolFactor(b: Band, atr: real): real {
    if atr <= b.highVol then 1.0
    else
      var f := 1.0 - (atr - b.highVol) / AtLeastTiny(b.extremeVol - b.highVol);
      if f > 0.0 then f else 0.0
  }

  /** 1 up to lo, 0 from hi, linear between. */
  function Fade(x: real, lo: real, hi: real): real {
    if x <= lo then 1.0
    else if x >= hi then 0.0
    else 1.0 - (x - lo) / AtLeastTiny(hi - lo)
  }

  function ConvictionFactor(c: Option<real>): real {
    if c.None? then 1.0
    else if c.value < 0.0 then 0.0
    else if c.value > 1.0 then 1.0
    else c.value
  }

  function Times(a: real, c: real): real {
    a * c
  }

  function Score(b: Band, q: Conditions): real {
    var vol := Times(VolFactor(b, q.atrPct), RegimeFactor(q.regime));
    var health := Times(Times(vol, Fade(q.drawdown, b.ddModerate, b.ddSevere)),
                        Fade(q.marginRatio, b.mrModerate, b.mrHigh));
    Times(health, ConvictionFactor(q.conviction))
  }

  function RoundHalfEven(x: real): int {
    var f := x.Floor;
    var d := x - f as real;
    if d < 0.5 then f
    else if d > 0.5 then f + 1
    else if f % 2 == 0 then f else f + 1
  }

  function Clamp(lo: int, x: int, hi: int): int {
    if Min(x, hi) > lo then Min(x, hi) else lo
  }

  function Compute(b: Band, q: Conditions): int {
    var ceiling, floor := BandCeiling(b, q), BandFloor(b, q);
    var span := ceiling - floor;
    if span == 0 then ceiling
    else if Halts(b, q) then 0
    else Clamp(floor, RoundHalfEven(floor as real + Times(Score(b, q), span as real)), ceiling)
  }

  // ----- rounding -----

  /** The nearest integer, and the even one of two that are equally near. */
  lemma RoundIsNearest(x: real)
    ensures -0.5 <= x - RoundHalfEven(x) as real <= 0.5
    ensures x - RoundHalfEven(x) as real == 0.5 || x - RoundHalfEven(x) as real == -0.5 ==> RoundHalfEven(x) % 2 == 0
  {
  }

  lemma RoundMonotone(x: real, y: real)
    requires x <= y
    ensures RoundHalfEven(x) <= RoundHalfEven(y)
  {
    assert x.Floor <= y.Floor;
  }

  lemma RoundInteger(n: int)
    ensures RoundHalfEven(n as real) == n
  {
  }

  // ----- the factors -----

  lemma ShareMonotone(x: real, y: real, span: real)
    requires x <= y && span > 0.0
    ensures x / span <= y / span
  {
    var p, q := x / span, y / span;
    assert p * span == x && q * span == y;
    assert p > q ==> p * span > q * span;
  }

  lemma FadeAntitone(x: real, y: real, lo: real, hi: real)
    requires x <= y
    ensures Fade(y, lo, hi) <= Fade(x, lo, hi)
  {
    ShareMonotone(x - lo, y - lo, AtLeastTiny(hi - lo));
  }

  lemma VolAntitone(b: Band, x: real, y: real)
    requires x <= y
    ensures 0.0 <= VolFactor(b, y) <= VolFactor(b, x) <= 1.0
  {
    var span := AtLeastTiny(b.extremeVol - b.highVol);
    ShareMonotone(x - b.highVol, y - b.highVol, span);
  }

  lemma TimesMonotone(a: real, a': real, c: real, c': real)
    requires 0.0 <= a <= a' && 0.0 <= c <= c'
    ensures 0.0 <= Times(a, c) <= Times(a', c')
    ensures a' <= 1.0 && c' <= 1.0 ==> Times(a', c') <= 1.0
  {
    assert a * c <= a' * c <= a' * c';
    assert a' <= 1.0 && c' <= 1.0 ==> a' * c' <= 1.0 * c';
  }

  /** At least as favourable in every respect, in the same market. */
  predicate NoWorse(q: Conditions, p: Conditions) {
    && q.base == p.base && q.venueMax == p.venueMax && q.regime == p.regime
    && q.atrPct <= p.atrPct && q.drawdown <= p.drawdown && q.marginRatio <= p.marginRatio
    && ConvictionFactor(p.conviction) <= ConvictionFactor(q.conviction)
  }

  lemma ScoreMonotone(b: Band, q: Conditions, p: Conditions)
    requires NoWorse(q, p)
    ensures 0.0 <= Score(b, p) <= Score(b, q) <= 1.0
  {
    hide VolFactor, Fade, RegimeFactor, ConvictionFactor, Times;
    VolAntitone(b, q.atrPct, p.atrPct);
    FadeAntitone(q.drawdown, p.drawdown, b.ddModerate, b.ddSevere);
    FadeAntitone(q.marginRatio, p.marginRatio, b.mrModerate, b.mrHigh);
    FactorsUnit(b, q);
    FactorsUnit(b, p);
    var v, v' := VolFactor(b, p.atrPct), VolFactor(b, q.atrPct);
    var g := RegimeFactor(q.regime);
    var d, d' := Fade(p.drawdown, b.ddModerate, b.ddSevere), Fade(q.drawdown, b.ddModerate, b.ddSevere);
    var m, m' := Fade(p.marginRatio, b.mrModerate, b.mrHigh), Fade(q.marginRatio, b.mrModerate, b.mrHigh);
    var c, c' := ConvictionFactor(p.conviction), ConvictionFactor(q.conviction);
    TimesMonotone(v, v', g, g);
    var x, x' := Times(v, g), Times(v', g);
    TimesMonotone(x, x', d, d');
    var y, y' := Times(x, d), Times(x', d');
    TimesMonotone(y, y', m, m');
    TimesMonotone(Times(y, m), Times(y', m'), c, c');
  }

  lemma FactorsUnit(b: Band, q: Conditions)
    ensures 0.0 <= VolFactor(b, q.atrPct) <= 1.0 && 0.0 <= RegimeFactor(q.regime) <= 1.0
    ensures 0.0 <= Fade(q.drawdown, b.ddModerate, b.ddSevere) <= 1.0
    ensures 0.0 <= Fade(q.marginRatio, b.mrModerate, b.mrHigh) <= 1.0
    ensures 0.0 <= ConvictionFactor(q.conviction) <= 1.0
  {
    VolAntitone(b, q.atrPct, q.atrPct);
  }

  // ----- the result -----

  /** Zero when halted with room in the band, else inside the band and under every cap;
      without room the halts do not bind. */
  lemma ComputeInBand(b: Band, q: Conditions)
    ensures
      var r, floor, ceiling := Compute(b, q), BandFloor(b, q), BandCeiling(b, q);
      && floor <= ceiling <= SYSTEM_MAX_LEVERAGE && ceiling <= b.configuredMax
      && (q.base != 0 ==> ceiling <= q.base)
      && (q.venueMax.Some? && q.venueMax.value != 0 ==> ceiling <= q.venueMax.value)
      && (floor < ceiling && Halts(b, q) ==> r == 0)
      && (!(floor < ceiling && Halts(b, q)) ==> floor <= r <= ceiling)
  {
    hide Score, RoundHalfEven;
  }

  /** The caps: the ceiling is the least of the configured and system limits, the base and
      venue limits that are given, and the floor is no more than it. */
  lemma BandWritten(b: Band, q: Conditions)
    ensures
      var ceiling, floor := BandCeiling(b, q), BandFloor(b, q);
      var caps := {b.configuredMax, 10} + (if q.base != 0 then {q.base} else {})
                  + if q.venueMax.Some? && q.venueMax.value != 0 then {q.venueMax.value} else {};
      && ceiling in caps && (forall c :: c in caps ==> ceiling <= c)
      && floor in {b.minLeverage, ceiling} && floor <= b.minLeverage && floor <= ceiling
  {
  }

  /** A share of a span used up: 1 before it, 0 past it, and in between what is left of it;
      a span of nothing counts as a billionth. */
  ghost predicate Fades(f: real, x: real, lo: real, hi: real) {
    var span := if hi - lo > 0.000000001 then hi - lo else 0.000000001;
    && (x <= lo ==> f == 1.0)
    && (x > lo && x >= hi ==> f == 0.0)
    && (lo < x < hi ==> f * span == span - (x - lo))
  }

  /** The shares of the regimes that are traded. */
  lemma RegimeWritten(g: Regime)
    ensures NoTrade(g) <==> g in {DeadMarket, LiquidationEvent, HighRiskChaos}
    ensures !NoTrade(g) ==>
      RegimeFactor(g) == match g
                         case TrendExpansion => 1.0
                         case BreakoutEnvironment => 0.85
                         case MeanReversion => 0.25
                         case LowVolChop => 0.2
                         case _ => 0.5
  {
  }

  /** The leverage of a signal that is not halted, from the five factors: the whole number
      nearest to floor + product * room. */
  lemma ComputeWritten(b: Band, q: Conditions, vol: real, dd: real, mr: real, say: real, product: real, room: real)
    requires q.atrPct < b.extremeVol && !NoTrade(q.regime)
    requires Fades(vol, q.atrPct, b.highVol, b.extremeVol)
    requires Fades(dd, q.drawdown, b.ddModerate, b.ddSevere) && Fades(mr, q.marginRatio, b.mrModerate, b.mrHigh)
    requires say == if q.conviction.None? || q.conviction.value > 1.0 then 1.0
                    else if q.conviction.value < 0.0 then 0.0 else q.conviction.value
    requires product == vol * RegimeFactor(q.regime) * dd * mr * say
    requires room == (BandCeiling(b, q) - BandFloor(b, q)) as real
    ensures
      var off := BandFloor(b, q) as real + product * room - Compute(b, q) as real;
      -0.5 <= off <= 0.5 && (off == 0.5 || off == -0.5 ==> Compute(b, q) % 2 == 0)
  {
    FactorsWritten(b, q, vol, dd, mr);
    hide Fades;
    ProductIs(b, q, vol, dd, mr, say, product);
    NearestWritten(b, q, product, room);
  }

  lemma FactorsWritten(b: Band, q: Conditions, vol: real, dd: real, mr: real)
    requires q.atrPct < b.extremeVol
    requires Fades(vol, q.atrPct, b.highVol, b.extremeVol)
    requires Fades(dd, q.drawdown, b.ddModerate, b.ddSevere) && Fades(mr, q.marginRatio, b.mrModerate, b.mrHigh)
    ensures vol == VolFactor(b, q.atrPct) && dd == Fade(q.drawdown, b.ddModerate, b.ddSevere)
    ensures mr == Fade(q.marginRatio, b.mrModerate, b.mrHigh)
  {
    hide Fades;
    FadesOnce(vol, VolFactor(b, q.atrPct), q.atrPct, b.highVol, b.extremeVol);
    FadesOnce(dd, Fade(q.drawdown, b.ddModerate, b.ddSevere), q.drawdown, b.ddModerate, b.ddSevere);
    FadesOnce(mr, Fade(q.marginRatio, b.mrModerate, b.mrHigh), q.marginRatio, b.mrModerate, b.mrHigh);
  }

  lemma NearestWritten(b: Band, q: Conditions, product: real, room: real)
    requires !Halts(b, q) && product == Score(b, q) && room == (BandCeiling(b, q) - BandFloor(b, q)) as real
    ensures
      var off := BandFloor(b, q) as real + product * room - Compute(b, q) as real;
      -0.5 <= off <= 0.5 && (off == 0.5 || off == -0.5 ==> Compute(b, q) % 2 == 0)
  {
    hide Score, RoundHalfEven, Compute, BandFloor, BandCeiling, Halts, Times;
    RoundedScore(b, q);
    TimesIs(product, room);
    RoundIsNearest(BandFloor(b, q) as real + Times(product, room));
  }

  lemma ProductIs(b: Band, q: Conditions, vol: real, dd: real, mr: real, say: real, product: real)
    requires vol == VolFactor(b, q.atrPct) && dd == Fade(q.drawdown, b.ddModerate, b.ddSevere)
    requires mr == Fade(q.marginRatio, b.mrModerate, b.mrHigh) && say == ConvictionFactor(q.conviction)
    requires product == vol * RegimeFactor(q.regime) * dd * mr * say
    ensures Score(b, q) == product
  {
    hide VolFactor, Fade, RegimeFactor, ConvictionFactor;
  }

  lemma TimesIs(a: real, c: real)
    ensures Times(a, c) == a * c
  {
  }

  /** Inside the band the clamp changes nothing. */
  lemma RoundedScore(b: Band, q: Conditions)
    requires !Halts(b, q)
    ensures
      var floor := BandFloor(b, q);
      Compute(b, q) == RoundHalfEven(floor as real + Times(Score(b, q), (BandCeiling(b, q) - floor) as real))
  {
    var floor, ceiling := BandFloor(b, q), BandCeiling(b, q);
    var span := (ceiling - floor) as real;
    ComputeInBand(b, q);
    ScoreMonotone(b, q, q);
    ScaledSpan(Score(b, q), span);
    hide Score, RoundHalfEven, Halts, Times, BandFloor, BandCeiling;
    RoundInteger(floor);
    RoundInteger(ceiling);
    RoundMonotone(floor as real, floor as real + Times(Score(b, q), span));
    RoundMonotone(floor as real + Times(Score(b, q), span), ceiling as real);
  }

  lemma ScaledSpan(share: real, span: real)
    requires 0.0 <= share <= 1.0 && span >= 0.0
    ensures 0.0 <= Times(share, span) <= span
  {
    TimesMonotone(share, 1.0, span, span);
    TimesIs(1.0, span);
    TimesMonotone(0.0, share, span, span);
  }

  /** The three factors are the only ones there are. */
  lemma FadesOnce(f: real, g: real, x: real, lo: real, hi: real)
    requires Fades(f, x, lo, hi) && Fades(g, x, lo, hi)
    ensures f == g
  {
    if lo < x < hi {
      var span := if hi - lo > 0.000000001 then hi - lo else 0.000000001;
      assert f * span == g * span;
      assert f < g ==> f * span < g * span;
      assert f > g ==> f * span > g * span;
    }
  }

  /** Worse conditions never raise the leverage, across every branch and the halts; only a
      halt, which returns 0, could rise above a floor configured below 0. */
  lemma ComputeMonotone(b: Band, q: Conditions, p: Conditions)
    requires NoWorse(q, p) && (Halts(b, p) ==> BandFloor(b, q) >= 0)
    ensures Compute(b, p) <= Compute(b, q)
  {
    hide Score, RoundHalfEven, Times;
    var floor, ceiling := BandFloor(b, q), BandCeiling(b, q);
    assert BandFloor(b, p) == floor && BandCeiling(b, p) == ceiling;
    ScoreMonotone(b, q, p);
    ComputeInBand(b, q);
    assert floor <= ceiling;
    var span := (ceiling - floor) as real;
    TimesMonotone(Score(b, p), Score(b, q), span, span);
    RoundMonotone(floor as real + Times(Score(b, p), span), floor as real + Times(Score(b, q), span));
  }

  /** Under these caps, no worse conditions ever give less leverage. */
  ghost predicate MonotoneUnder(b: Band, base: int, venueMax: Option<int>) {
    forall q, p {:trigger NoWorse(q, p)} ::
      NoWorse(q, p) && q.base == base && q.venueMax == venueMax ==> Compute(b, p) <= Compute(b, q)
  }

  function Plain(base: int, venueMax: Option<int>, atrPct: real): Conditions {
    Conditions(base, venueMax, atrPct, 0.0, 0.0, TrendExpansion, Some(0.0))
  }

  /** For any band and caps, leverage is monotone if and only if the floor is not negative or
      the band has no room: otherwise a signal without conviction gets the negative floor, and
      the same signal in an extreme market, halted, gets 0. */
  lemma MonotoneIff(b: Band, base: int, venueMax: Option<int>)
    ensures
      var caps := Plain(base, venueMax, 0.0);
      MonotoneUnder(b, base, venueMax) <==> BandFloor(b, caps) >= 0 || BandFloor(b, caps) == BandCeiling(b, caps)
  {
    hide Score, RoundHalfEven;
    var caps := Plain(base, venueMax, 0.0);
    if BandFloor(b, caps) >= 0 || BandFloor(b, caps) == BandCeiling(b, caps) {
      forall q, p | NoWorse(q, p) && q.base == base && q.venueMax == venueMax
        ensures Compute(b, p) <= Compute(b, q)
      {
        assert BandFloor(b, q) == BandFloor(b, caps) && BandCeiling(b, q) == BandCeiling(b, caps);
        if BandFloor(b, caps) >= 0 { ComputeMonotone(b, q, p); }
      }
    } else {
      var q, p := Plain(base, venueMax, b.extremeVol - 1.0), Plain(base, venueMax, b.extremeVol);
      AnyRiskFactorFloors(b, q);
      assert NoWorse(q, p) && Compute(b, p) == 0 > Compute(b, q);
    }
  }

  /** The top of the band is reached when everything is favourable. */
  lemma FullHeadroom(b: Band, q: Conditions)
    requires q.atrPct <= b.highVol && q.atrPct < b.extremeVol && q.regime.TrendExpansion?
    requires q.drawdown <= b.ddModerate && q.marginRatio <= b.mrModerate && ConvictionFactor(q.conviction) == 1.0
    ensures Compute(b, q) == BandCeiling(b, q)
  {
    FullScore(b, q);
    hide Score, RoundHalfEven, VolFactor, Fade, ConvictionFactor;
    var floor, ceiling := BandFloor(b, q), BandCeiling(b, q);
    assert floor as real + Times(1.0, (ceiling - floor) as real) == ceiling as real;
    RoundInteger(ceiling);
  }

  lemma FullScore(b: Band, q: Conditions)
    requires q.atrPct <= b.highVol && q.regime.TrendExpansion?
    requires q.drawdown <= b.ddModerate && q.marginRatio <= b.mrModerate && ConvictionFactor(q.conviction) == 1.0
    ensures Score(b, q) == 1.0
  {
    hide ConvictionFactor;
  }

  /** Any single exhausted factor brings it back to the floor. */
  lemma AnyRiskFactorFloors(b: Band, q: Conditions)
    requires !Halts(b, q)
    requires
      || Fade(q.drawdown, b.ddModerate, b.ddSevere) == 0.0
      || Fade(q.marginRatio, b.mrModerate, b.mrHigh) == 0.0
      || ConvictionFactor(q.conviction) == 0.0
    ensures Compute(b, q) == BandFloor(b, q)
  {
    hide VolFactor, Fade, RegimeFactor, ConvictionFactor, RoundHalfEven;
    ZeroScore(b, q);
    hide Score;
    var floor, ceiling := BandFloor(b, q), BandCeiling(b, q);
    assert floor as real + Times(0.0, (ceiling - floor) as real) == floor as real;
    RoundInteger(floor);
  }

  lemma ZeroScore(b: Band, q: Conditions)
    requires
      || Fade(q.drawdown, b.ddModerate, b.ddSevere) == 0.0
      || Fade(q.marginRatio, b.mrModerate, b.mrHigh) == 0.0
      || ConvictionFactor(q.conviction) == 0.0
    ensures Score(b, q) == 0.0
  {
    hide VolFactor, Fade, RegimeFactor, ConvictionFactor;
  }
}
