/** The funding-arb position as a value, and the dictionary form in which it is persisted. */
module ArbRecords {
  import opened Wrappers

  datatype ArbState = PlacingPerp | PerpOnly | Hedged | UnwindingPerp | UnwindingSpot | Closed

  function StateName(s: ArbState): string {
    match s
    case PlacingPerp => "PLACING_PERP"
    case PerpOnly => "PERP_ONLY"
    case Hedged => "HEDGED"
    case UnwindingPerp => "UNWINDING_PERP"
    case UnwindingSpot => "UNWINDING_SPOT"
    case Closed => "CLOSED"
  }

  function StateNamed(name: string): Option<ArbState> {
    if name == "PLACING_PERP" then Some(PlacingPerp)
    else if name == "PERP_ONLY" then Some(PerpOnly)
    else if name == "HEDGED" then Some(Hedged)
    else if name == "UNWINDING_PERP" then Some(UnwindingPerp)
    else if name == "UNWINDING_SPOT" then Some(UnwindingSpot)
    else if name == "CLOSED" then Some(Closed)
    else None
  }

  datatype ArbRecord = ArbRecord(
    arbId: string, symbol: string, state: ArbState,
    spotQty: real, perpQty: real, spotEntryPrice: real, perpEntryPrice: real,
    entryBasis: real, accruedFunding: real, fundingPayments: int, entryFees: real,
    spotOrderId: string, perpOrderId: string, perpPositionId: string,
    openTime: int, lastFundingTs: int, closeTime: Option<int>, closeReason: Option<string>,
    realizedPnl: real)

  /** JSON values; a Decimal travels as its text, here as the number that text denotes. */
  datatype Json = Null | Text(s: string) | Number(n: int) | DecimalText(d: real)

  /** The field names of the persisted form. */
  datatype Key =
    | ArbIdKey | SymbolKey | StateKey | SpotQtyKey | PerpQtyKey | SpotEntryPriceKey
    | PerpEntryPriceKey | EntryBasisKey | AccruedFundingKey | FundingPaymentsKey | EntryFeesKey
    | SpotOrderIdKey | PerpOrderIdKey | PerpPositionIdKey | OpenTimeKey | LastFundingTsKey
    | CloseTimeKey | CloseReasonKey | RealizedPnlKey

  type Dict = map<Key, Json>

  function FieldJson(a: ArbRecord, key: Key): Json {
    match key
    case ArbIdKey => Text(a.arbId)
    case SymbolKey => Text(a.symbol)
    case StateKey => Text(StateName(a.state))
    case SpotQtyKey => DecimalText(a.spotQty)
    case PerpQtyKey => DecimalText(a.perpQty)
    case SpotEntryPriceKey => DecimalText(a.spotEntryPrice)
    case PerpEntryPriceKey => DecimalText(a.perpEntryPrice)
    case EntryBasisKey => DecimalText(a.entryBasis)
    case AccruedFundingKey => DecimalText(a.accruedFunding)
    case FundingPaymentsKey => Number(a.fundingPayments)
    case EntryFeesKey => DecimalText(a.entryFees)
    case SpotOrderIdKey => Text(a.spotOrderId)
    case PerpOrderIdKey => Text(a.perpOrderId)
    case PerpPositionIdKey => Text(a.perpPositionId)
    case OpenTimeKey => Number(a.openTime)
    case LastFundingTsKey => Number(a.lastFundingTs)
    case CloseTimeKey => if a.closeTime.None? then Null else Number(a.closeTime.value)
    case CloseReasonKey => if a.closeReason.None? then Null else Text(a.closeReason.value)
    case RealizedPnlKey => DecimalText(a.realizedPnl)
  }

  function ToDict(a: ArbRecord): Dict {
    map key: Key :: FieldJson(a, key)
  }

  // ----- reading a field back: absent fields take the declared default -----

  function TextField(d: Dict, key: Key): Option<string> {
    if key !in d then Some("") else if d[key].Text? then Some(d[key].s) else None
  }

  function NumberField(d: Dict, key: Key): Option<int> {
    if key !in d then Some(0) else if d[key].Number? then Some(d[key].n) else None
  }

  function DecimalField(d: Dict, key: Key): Option<real> {
    if key !in d then Some(0.0)
    else if d[key].DecimalText? then Some(d[key].d)
    else if d[key].Number? then Some(d[key].n as real)
    else None
  }

  function OptionalNumber(d: Dict, key: Key): Option<Option<int>> {
    if key !in d || d[key].Null? then Some(None)
    else if d[key].Number? then Some(Some(d[key].n)) else None
  }

  function OptionalText(d: Dict, key: Key): Option<Option<string>> {
    if key !in d || d[key].Null? then Some(None)
    else if d[key].Text? then Some(Some(d[key].s)) else None
  }

  /** None where rebuilding the position raises: a required field is missing, or a
      field does not hold a value of its type. */
  function FromDict(d: Dict): Option<ArbRecord> {
    if ArbIdKey !in d || SymbolKey !in d || StateKey !in d then None
    else
      var id, symbol, name := TextField(d, ArbIdKey), TextField(d, SymbolKey), TextField(d, StateKey);
      var state := if name.None? then None else StateNamed(name.value);
      var spotQty, perpQty := DecimalField(d, SpotQtyKey), DecimalField(d, PerpQtyKey);
      var spotPx, perpPx := DecimalField(d, SpotEntryPriceKey), DecimalField(d, PerpEntryPriceKey);
      var basis, accrued := DecimalField(d, EntryBasisKey), DecimalField(d, AccruedFundingKey);
      var payments, fees := NumberField(d, FundingPaymentsKey), DecimalField(d, EntryFeesKey);
      var spotId, perpId := TextField(d, SpotOrderIdKey), TextField(d, PerpOrderIdKey);
      var positionId := TextField(d, PerpPositionIdKey);
      var openTs, lastTs := NumberField(d, OpenTimeKey), NumberField(d, LastFundingTsKey);
      var closed, reason := OptionalNumber(d, CloseTimeKey), OptionalText(d, CloseReasonKey);
      var pnl := DecimalField(d, RealizedPnlKey);
      if id.None? || symbol.None? || state.None? || spotQty.None? || perpQty.None? || spotPx.None?
         || perpPx.None? || basis.None? || accrued.None? || payments.None? || fees.None?
         || spotId.None? || perpId.None? || positionId.None? || openTs.None? || lastTs.None?
         || closed.None? || reason.None? || pnl.None?
      then None
      else Some(ArbRecord(
        id.value, symbol.value, state.value, spotQty.value, perpQty.value, spotPx.value, perpPx.value,
        basis.value, accrued.value, payments.value, fees.value, spotId.value, perpId.value,
        positionId.value, openTs.value, lastTs.value, closed.value, reason.value, pnl.value))
  }

  lemma StateNamesDistinct(s: ArbState)
    ensures StateNamed(StateName(s)) == Some(s)
  {
  }

  lemma DecimalsKept(a: ArbRecord)
    ensures
      var d := ToDict(a);
      && DecimalField(d, SpotQtyKey) == Some(a.spotQty) && DecimalField(d, PerpQtyKey) == Some(a.perpQty)
      && DecimalField(d, SpotEntryPriceKey) == Some(a.spotEntryPrice)
      && DecimalField(d, PerpEntryPriceKey) == Some(a.perpEntryPrice)
      && DecimalField(d, EntryBasisKey) == Some(a.entryBasis)
      && DecimalField(d, AccruedFundingKey) == Some(a.accruedFunding)
      && DecimalField(d, EntryFeesKey) == Some(a.entryFees)
      && DecimalField(d, RealizedPnlKey) == Some(a.realizedPnl)
  {
  }

  lemma TextsKept(a: ArbRecord)
    ensures
      var d := ToDict(a);
      && ArbIdKey in d && SymbolKey in d && StateKey in d
      && TextField(d, ArbIdKey) == Some(a.arbId) && TextField(d, SymbolKey) == Some(a.symbol)
      && TextField(d, StateKey) == Some(StateName(a.state))
      && TextField(d, SpotOrderIdKey) == Some(a.spotOrderId) && TextField(d, PerpOrderIdKey) == Some(a.perpOrderId)
      && TextField(d, PerpPositionIdKey) == Some(a.perpPositionId)
  {
    hide StateName;
  }

  lemma NumbersKept(a: ArbRecord)
    ensures
      var d := ToDict(a);
      && NumberField(d, FundingPaymentsKey) == Some(a.fundingPayments)
      && NumberField(d, OpenTimeKey) == Some(a.openTime) && NumberField(d, LastFundingTsKey) == Some(a.lastFundingTs)
      && OptionalNumber(d, CloseTimeKey) == Some(a.closeTime) && OptionalText(d, CloseReasonKey) == Some(a.closeReason)
  {
  }

  /** Persisting a position and reading it back loses nothing. */
  lemma DictRoundTrip(a: ArbRecord)
    ensures FromDict(ToDict(a)) == Some(a)
  {
    hide StateName, StateNamed, ToDict, TextField, NumberField, DecimalField, OptionalNumber, OptionalText;
    StateNamesDistinct(a.state);
    DecimalsKept(a);
    TextsKept(a);
    NumbersKept(a);
  }

  /** A snapshot that lacks a field reads back with the field's default; without its id, symbol
      or state it is unreadable. */
  lemma AbsentFieldsDefault(id: string, symbol: string, state: ArbState)
    ensures FromDict(map[ArbIdKey := Text(id), SymbolKey := Text(symbol), StateKey := Text(StateName(state))])
            == Some(ArbRecord(id, symbol, state, 0.0, 0.0, 0.0, 0.0, 0.0, 0.0, 0, 0.0, "", "", "", 0, 0,
                              None, None, 0.0))
    ensures forall d :: ArbIdKey !in d || SymbolKey !in d || StateKey !in d ==> FromDict(d).None?
  {
    hide StateName, StateNamed;
    StateNamesDistinct(state);
  }
}
