/**
 * The quantity and price validators of BasicBot (`_validate_quantity`,
 * `_validate_price`): find the symbol's first LOT_SIZE or PRICE_FILTER entry,
 * check the raw value against its bounds, then truncate it with
 * `Decimal.quantize(Decimal(str(step)), ROUND_DOWN)`.
 *
 * `quantize` fixes only the number of fractional digits, to the exponent of
 * `Decimal(str(step))`: a step of 0.5 keeps one decimal and does not round to
 * a multiple of 0.5, and an integral step such as 1 (printed "1.0") keeps one
 * decimal too. The result is a multiple of the step when the step is
 * 0.1, 0.01, 0.001, ... (ReprScaleOfPowerOfTen).
 */
module Normalizer {
  import opened Wrappers
  import opened Decimals
  import opened Records

  /** The validators' (is_valid, message, adjusted) result. */
  datatype Checked = Checked(ok: bool, message: Message, adjusted: Decimal)

  function FilterType(field: Field): string
  {
    match field
    case Quantity => "LOT_SIZE"
    case Price => "PRICE_FILTER"
  }

  function MinKey(field: Field): string
  {
    match field
    case Quantity => "minQty"
    case Price => "minPrice"
  }

  function MaxKey(field: Field): string
  {
    match field
    case Quantity => "maxQty"
    case Price => "maxPrice"
  }

  function StepKey(field: Field): string
  {
    match field
    case Quantity => "stepSize"
    case Price => "tickSize"
  }

  /** The first filter of the given type, as the validators' loop finds it. */
  function FirstFilter(filters: seq<Filter>, filterType: string): (r: Option<Filter>)
    ensures r.Some? ==> exists i :: (0 <= i < |filters| && filters[i] == r.value
      && r.value.filterType == filterType
      && forall j :: 0 <= j < i ==> filters[j].filterType != filterType)
    ensures r.None? <==> forall i :: 0 <= i < |filters| ==> filters[i].filterType != filterType
  {
    if |filters| == 0 then None
    else if filters[0].filterType == filterType then Some(filters[0])
    else
      var r := FirstFilter(filters[1..], filterType);
      assert forall i :: 1 <= i < |filters| ==> filters[i] == filters[1..][i - 1];
      r
  }

  /** The filter carries the three fields the validator reads (a missing one raises KeyError). */
  predicate HasBounds(field: Field, f: Filter)
  {
    MinKey(field) in f.fields && MaxKey(field) in f.fields && StepKey(field) in f.fields
  }

  /** Quantity always has an upper bound; for price, a maxPrice of 0 means there is none. */
  predicate UpperBoundApplies(field: Field, maximum: Decimal)
  {
    field == Quantity || IsPositive(maximum)
  }

  /** The raw value is outside the filter's bounds. */
  predicate OutOfBounds(field: Field, f: Filter, raw: Decimal)
    requires HasBounds(field, f)
  {
    var lo, hi := f.fields[MinKey(field)], f.fields[MaxKey(field)];
    Less(raw, lo) || (UpperBoundApplies(field, hi) && Less(hi, raw))
  }

  /**
   * The body of the validator once it has found a matching filter. Any
   * exception (a missing field, or `quantize` needing more than 28 digits)
   * yields (True, "Validation skipped", raw).
   */
  function ApplyFilter(field: Field, f: Filter, raw: Decimal): (r: Checked)
    ensures !r.ok <==> HasBounds(field, f) && OutOfBounds(field, f, raw)
    ensures r.message != Valid ==> r.adjusted == raw
    ensures !r.ok && Less(raw, f.fields[MinKey(field)]) ==> r.message == BelowMinimum(field, raw, f.fields[MinKey(field)])
    ensures !r.ok && !Less(raw, f.fields[MinKey(field)]) ==> r.message == AboveMaximum(field, raw, f.fields[MaxKey(field)])
    ensures r.ok && r.message != Valid ==> r.message == ValidationSkipped
    ensures HasBounds(field, f) && !OutOfBounds(field, f, raw) ==>
      (r.message == Valid <==> Quantize(raw, ReprScale(f.fields[StepKey(field)])).Some?)
    ensures r.message == Valid ==> HasBounds(field, f) && Some(r.adjusted) == Quantize(raw, ReprScale(f.fields[StepKey(field)]))
  {
    if !HasBounds(field, f) then Checked(true, ValidationSkipped, raw)
    else
      var lo, hi, step := f.fields[MinKey(field)], f.fields[MaxKey(field)], f.fields[StepKey(field)];
      if Less(raw, lo) then Checked(false, BelowMinimum(field, raw, lo), raw)
      else if UpperBoundApplies(field, hi) && Less(hi, raw) then Checked(false, AboveMaximum(field, raw, hi), raw)
      else
        match Quantize(raw, ReprScale(step))
        case None => Checked(true, ValidationSkipped, raw)
        case Some(q) => Checked(true, Valid, q)
  }

  /** The validator on a symbol's filter list. */
  function NormalizeWith(field: Field, filters: seq<Filter>, raw: Decimal): (r: Checked)
    ensures (forall i :: 0 <= i < |filters| ==> filters[i].filterType != FilterType(field))
            ==> r == Checked(true, NoFilterFound(FilterType(field)), raw)
    ensures (exists i :: 0 <= i < |filters| && filters[i].filterType == FilterType(field)) ==>
      exists i :: && 0 <= i < |filters| && filters[i].filterType == FilterType(field)
                  && (forall j :: 0 <= j < i ==> filters[j].filterType != FilterType(field))
                  && r == ApplyFilter(field, filters[i], raw)
    ensures r.message == NoFilterFound(FilterType(field)) <==>
      forall i :: 0 <= i < |filters| ==> filters[i].filterType != FilterType(field)
  {
    match FirstFilter(filters, FilterType(field))
    case None => Checked(true, NoFilterFound(FilterType(field)), raw)
    case Some(f) => ApplyFilter(field, f, raw)
  }

  /**
   * The validator given the outcome of `get_symbol_info`; None stands for the
   * exception it raised (unknown symbol or exchange error), which the
   * validator catches.
   */
  function Normalize(field: Field, info: Option<SymbolInfo>, raw: Decimal): (r: Checked)
    ensures info.None? ==> r == Checked(true, ValidationSkipped, raw)
    ensures info.Some? ==> r == NormalizeWith(field, info.value.filters, raw)
  {
    match info
    case None => Checked(true, ValidationSkipped, raw)
    case Some(s) => NormalizeWith(field, s.filters, raw)
  }

  /** The validator's loop over the filter list, returning at the first filter of its type. */
  method ScanFilters(field: Field, filters: seq<Filter>, raw: Decimal) returns (r: Checked)
    ensures r == NormalizeWith(field, filters, raw)
  {
    var wanted := FilterType(field);
    for i := 0 to |filters|
      invariant forall j :: 0 <= j < i ==> filters[j].filterType != wanted
    {
      var f := filters[i];
      if f.filterType == wanted {
        if !HasBounds(field, f) {
          return Checked(true, ValidationSkipped, raw);
        }
        var lo, hi, step := f.fields[MinKey(field)], f.fields[MaxKey(field)], f.fields[StepKey(field)];
        if Less(raw, lo) {
          return Checked(false, BelowMinimum(field, raw, lo), raw);
        }
        if UpperBoundApplies(field, hi) && Less(hi, raw) {
          return Checked(false, AboveMaximum(field, raw, hi), raw);
        }
        var q := Quantize(raw, ReprScale(step));
        if q.None? {
          return Checked(true, ValidationSkipped, raw);
        }
        return Checked(true, Valid, q.value);
      }
    }
    return Checked(true, NoFilterFound(wanted), raw);
  }

  /** Without a filter of its type, or when the symbol lookup raised, a validator passes the raw value through and never fails. */
  lemma MissingFilterPassesThrough(field: Field, info: Option<SymbolInfo>, raw: Decimal)
    requires info.Some? ==> forall i :: 0 <= i < |info.value.filters| ==> info.value.filters[i].filterType != FilterType(field)
    ensures Normalize(field, info, raw).ok
    ensures Normalize(field, info, raw).adjusted == raw
    ensures Normalize(field, info, raw).message == if info.None? then ValidationSkipped else NoFilterFound(FilterType(field))
  {
  }

  /**
   * An in-bounds value is accepted as Valid whenever `quantize` can represent
   * it in 28 digits, and the accepted value is the quantized raw value.
   */
  lemma InBoundsIsAccepted(field: Field, f: Filter, raw: Decimal)
    requires HasBounds(field, f) && !OutOfBounds(field, f, raw)
    requires Abs(raw.mant) * Pow10(ReprScale(f.fields[StepKey(field)])) < CoefficientLimit * Pow10(raw.scale)
    ensures var r := ApplyFilter(field, f, raw);
      r.ok && r.message == Valid && Some(r.adjusted) == Quantize(raw, ReprScale(f.fields[StepKey(field)]))
  {
  }

  /**
   * A value accepted with message Valid is the raw value cut to the step's
   * digits: for a non-negative raw value it is at most the raw value, less
   * than one step-digit unit below it, and not above the maximum.
   */
  lemma AcceptedValueIsTruncated(field: Field, f: Filter, raw: Decimal)
    requires ApplyFilter(field, f, raw).message == Valid && IsNonNegative(raw)
    ensures var adj := ApplyFilter(field, f, raw).adjusted;
      var s := ReprScale(f.fields[StepKey(field)]);
      var S := if raw.scale <= s then s else raw.scale;
      && IsNonNegative(adj)
      && LessEq(adj, raw)
      && At(raw, S) - At(adj, S) < Pow10(S - s)
      && (UpperBoundApplies(field, f.fields[MaxKey(field)]) ==> LessEq(adj, f.fields[MaxKey(field)]))
  {
    var adj := ApplyFilter(field, f, raw).adjusted;
    var s := ReprScale(f.fields[StepKey(field)]);
    var hi := f.fields[MaxKey(field)];
    assert Quantize(raw, s) == Some(adj);
    QuantizeTruncates(raw, s);
    var S := if raw.scale <= s then s else raw.scale;
    CompareAt(adj, raw, S);
    if UpperBoundApplies(field, hi) {
      var T := if S <= hi.scale then hi.scale else S;
      CompareAt(raw, hi, T);
      CompareAt(adj, hi, T);
      CompareAt(adj, raw, T);
    }
  }

  /**
   * When the minimum itself has no more digits than the step (as the
   * exchange's minimums do), truncation cannot take an accepted value below it.
   */
  lemma AcceptedValueKeepsGridMinimum(field: Field, f: Filter, raw: Decimal)
    requires ApplyFilter(field, f, raw).message == Valid
    requires var lo := f.fields[MinKey(field)];
      IsNonNegative(lo) && OnGrid(lo, ReprScale(f.fields[StepKey(field)]))
    ensures LessEq(f.fields[MinKey(field)], ApplyFilter(field, f, raw).adjusted)
  {
    var lo := f.fields[MinKey(field)];
    var s := ReprScale(f.fields[StepKey(field)]);
    var adj := ApplyFilter(field, f, raw).adjusted;
    assert Quantize(raw, s) == Some(adj);
    NotLessIsLessEq(raw, lo);
    NonNegativeAbove(lo, raw);
    // lo written with exactly s digits is a grid point not above raw.
    var g := GridForm(lo, s);
    SameValueCompares(g, lo, raw);
    QuantizeIsGreatestBelow(raw, s, g);
    SameValueCompares(g, lo, adj);
  }

  /** The same number as d, written with exactly s fractional digits, when d is on that grid. */
  function GridForm(d: Decimal, s: nat): (g: Decimal)
    requires OnGrid(d, s)
    ensures g.scale == s && SameValue(g, d)
  {
    if d.scale <= s then
      var g := Decimal(At(d, s), s);
      assert At(g, s) == At(d, s);
      CompareAt(g, d, s);
      g
    else
      var p := Pow10(d.scale - s);
      var g := Decimal(d.mant / p, s);
      DivMod(d.mant, p);
      assert At(g, d.scale) == d.mant;
      CompareAt(g, d, d.scale);
      g
  }

  /**
   * Re-validating an accepted value gives it back unchanged, provided the
   * minimum is a non-negative value on the step's grid (otherwise truncation
   * may leave the value below the minimum; see OffGridMinimumExample).
   */
  lemma RevalidationIsIdempotent(field: Field, f: Filter, raw: Decimal)
    requires ApplyFilter(field, f, raw).message == Valid
    requires var lo := f.fields[MinKey(field)];
      IsNonNegative(lo) && OnGrid(lo, ReprScale(f.fields[StepKey(field)]))
    ensures ApplyFilter(field, f, ApplyFilter(field, f, raw).adjusted) == ApplyFilter(field, f, raw)
  {
    var lo, hi := f.fields[MinKey(field)], f.fields[MaxKey(field)];
    var s := ReprScale(f.fields[StepKey(field)]);
    var adj := ApplyFilter(field, f, raw).adjusted;
    AcceptedValueKeepsGridMinimum(field, f, raw);
    NotLessIsLessEq(raw, lo);
    NonNegativeAbove(lo, raw);
    AcceptedValueIsTruncated(field, f, raw);
    NotLessIsLessEq(adj, lo);
    if UpperBoundApplies(field, hi) {
      NotLessIsLessEq(hi, adj);
    }
    assert Quantize(raw, s) == Some(adj);
    QuantizeIdempotent(raw, s);
  }

  /** A raw value that already has no more digits than the step is accepted with the same value. */
  lemma GridValueUnchanged(field: Field, f: Filter, raw: Decimal)
    requires ApplyFilter(field, f, raw).message == Valid
    requires OnGrid(raw, ReprScale(f.fields[StepKey(field)]))
    ensures SameValue(ApplyFilter(field, f, raw).adjusted, raw)
  {
    var s := ReprScale(f.fields[StepKey(field)]);
    assert Quantize(raw, s) == Some(ApplyFilter(field, f, raw).adjusted);
    QuantizeKeepsGridValue(raw, s);
  }

  /** A maxPrice of 0 never rejects a price for being too high. */
  lemma ZeroMaxPriceIsUnbounded(f: Filter, raw: Decimal)
    requires HasBounds(Price, f) && f.fields["maxPrice"].mant == 0
    ensures !ApplyFilter(Price, f, raw).message.AboveMaximum?
    ensures ApplyFilter(Price, f, raw).ok <==> !Less(raw, f.fields["minPrice"])
  {
  }

  /** LOT_SIZE {minQty 0.001, maxQty 1000, stepSize 0.001}: quantity 0.0019 becomes 0.001. */
  lemma LotSizeExample()
    ensures var f := Filter("LOT_SIZE", map["minQty" := Decimal(100000, 8), "maxQty" := Decimal(100000000000, 8), "stepSize" := Decimal(100000, 8)]);
      ApplyFilter(Quantity, f, Decimal(19, 4)) == Checked(true, Valid, Decimal(1, 3))
  {
    assert Pow10(5) == 100000;
    ReprScaleOfPowerOfTen(5, 3);
    assert Quantize(Decimal(19, 4), 3) == Some(Decimal(1, 3));
  }

  /** PRICE_FILTER {minPrice 100, maxPrice 0, tickSize 0.1}: price 123.456 becomes 123.4, with no upper bound. */
  lemma PriceFilterExample()
    ensures var f := Filter("PRICE_FILTER", map["minPrice" := Decimal(100, 0), "maxPrice" := Decimal(0, 0), "tickSize" := Decimal(1, 1)]);
      ApplyFilter(Price, f, Decimal(123456, 3)) == Checked(true, Valid, Decimal(1234, 1))
  {
  }

  /** A tick of 0.5 keeps one decimal: 1.3 is accepted as 1.3, which is not a multiple of 0.5. */
  lemma HalfTickExample()
    ensures var f := Filter("PRICE_FILTER", map["minPrice" := Decimal(0, 0), "maxPrice" := Decimal(0, 0), "tickSize" := Decimal(5, 1)]);
      var r := ApplyFilter(Price, f, Decimal(13, 1));
      r == Checked(true, Valid, Decimal(13, 1)) && r.adjusted.mant % 5 != 0
  {
  }

  /** A step of 1 ("1.0" once printed) keeps one decimal: quantity 10.75 becomes 10.7, not 10. */
  lemma IntegralStepExample()
    ensures var f := Filter("LOT_SIZE", map["minQty" := Decimal(1, 0), "maxQty" := Decimal(1000, 0), "stepSize" := Decimal(100000000, 8)]);
      ApplyFilter(Quantity, f, Decimal(1075, 2)) == Checked(true, Valid, Decimal(107, 1))
  {
    assert Pow10(8) == 100000000;
    ReprScaleOfIntegral(Decimal(100000000, 8));
    assert Quantize(Decimal(1075, 2), 1) == Some(Decimal(107, 1));
  }

  /**
   * Bounds are checked before truncation: with minQty 0.0015 (off the 0.001
   * grid) quantity 0.0019 is accepted as 0.001, below the minimum, and
   * validating that value again fails.
   */
  lemma OffGridMinimumExample()
    ensures var f := Filter("LOT_SIZE", map["minQty" := Decimal(15, 4), "maxQty" := Decimal(10, 0), "stepSize" := Decimal(1, 3)]);
      && ApplyFilter(Quantity, f, Decimal(19, 4)) == Checked(true, Valid, Decimal(1, 3))
      && Less(Decimal(1, 3), Decimal(15, 4))
      && !ApplyFilter(Quantity, f, Decimal(1, 3)).ok
  {
  }
}
