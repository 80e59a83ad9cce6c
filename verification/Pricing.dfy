/** Admin pricing: margin on the store price, then discount, each rounded half up to the paisa. */
module Pricing {
  // Prices and fixed amounts are in paise, percentages in hundredths of a percent.

  import opened Wrappers
  import opened Rounding

  datatype MarginType = NoMargin | FixedMargin | PercentageMargin | InvalidMargin

  datatype DiscountType = NoDiscount | FixedDiscount | PercentageDiscount | InvalidDiscount

  datatype Error =
    | StorePriceRequired | StorePriceNegative | MarginTypeRequired | MarginRequired | MarginNegative
    | MarginTooLarge | MarginTypeInvalid | SellingNotPositive
    | DiscountNegative | DiscountTooLarge | DiscountTypeInvalid | FinalNotPositive

  const WHOLE := 10000

  function SellingPrice(storePrice: Option<int>, marginType: MarginType, margin: Option<int>): Result<nat, Error> {
    if storePrice.None? then Err(StorePriceRequired)
    else if storePrice.value < 0 then Err(StorePriceNegative)
    else if marginType == NoMargin then Err(MarginTypeRequired)
    else if margin.None? then Err(MarginRequired)
    else if margin.value < 0 then Err(MarginNegative)
    else if marginType == PercentageMargin && margin.value > WHOLE then Err(MarginTooLarge)
    else if marginType == InvalidMargin then Err(MarginTypeInvalid)
    else
      var selling :=
        if marginType == PercentageMargin then HalfUp(storePrice.value * (WHOLE + margin.value), WHOLE)
        else storePrice.value + margin.value;
      if selling == 0 then Err(SellingNotPositive) else Ok(selling)
  }

  function FinalPrice(selling: nat, discountType: DiscountType, discount: Option<int>): Result<nat, Error> {
    if discountType == NoDiscount then Ok(selling)
    else
      var d := if discount.Some? then discount.value else 0;
      if d < 0 then Err(DiscountNegative)
      else
        match discountType
        case PercentageDiscount =>
          if d > WHOLE then Err(DiscountTooLarge) else Positive(HalfUp(selling * (WHOLE - d), WHOLE))
        case FixedDiscount => if d > selling then Err(DiscountTooLarge) else Positive(selling - d)
        case _ => Err(DiscountTypeInvalid)
  }

  function Positive(final: nat): Result<nat, Error> {
    if final == 0 then Err(FinalNotPositive) else Ok(final)
  }

  datatype Prices = Prices(selling: nat, final: nat)

  /** What admin sets: margin and discount. */
  datatype Terms = Terms(marginType: MarginType, margin: Option<int>, discountType: DiscountType, discount: Option<int>)

  function Calculate(storePrice: Option<int>, terms: Terms): Result<Prices, Error> {
    match SellingPrice(storePrice, terms.marginType, terms.margin)
    case Err(error) => Err(error)
    case Ok(selling) =>
      match FinalPrice(selling, terms.discountType, terms.discount)
      case Err(error) => Err(error)
      case Ok(final) => Ok(Prices(selling, final))
  }

  function Amount(o: Option<int>): int {
    if o.Some? then o.value else 0
  }

  // ----- Bounds -----

  lemma {:induction false} ScaleUp(price: nat, pct: nat)
    ensures price * WHOLE <= price * (WHOLE + pct)
    ensures HalfUp(price * (WHOLE + pct), WHOLE) >= price
  {
    NonNegativeProduct(price, pct);
    assert price * (WHOLE + pct) == price * WHOLE + price * pct;
    RoundingMonotone(price * WHOLE, price * (WHOLE + pct), WHOLE);
    RoundingExact(price, WHOLE);
  }

  lemma {:induction false} ScaleDown(price: nat, pct: nat)
    requires pct <= WHOLE
    ensures 0 <= price * (WHOLE - pct) <= price * WHOLE
    ensures HalfUp(price * (WHOLE - pct), WHOLE) <= price
  {
    NonNegativeProduct(price, pct);
    NonNegativeProduct(price, WHOLE - pct);
    assert price * (WHOLE - pct) == price * WHOLE - price * pct;
    RoundingMonotone(price * (WHOLE - pct), price * WHOLE, WHOLE);
    RoundingExact(price, WHOLE);
  }

  /** An accepted price is positive, never above the selling price, which covers the store price. */
  lemma {:induction false} AcceptedPricesBounded(storePrice: Option<int>, terms: Terms)
    requires Calculate(storePrice, terms).Ok?
    ensures var prices := Calculate(storePrice, terms).value;
      storePrice.Some? && 0 < prices.final <= prices.selling && storePrice.value <= prices.selling
  {
    var selling := SellingPrice(storePrice, terms.marginType, terms.margin).value;
    if terms.marginType == PercentageMargin {
      ScaleUp(storePrice.value, terms.margin.value);
    }
    if terms.discountType == PercentageDiscount {
      ScaleDown(selling, Amount(terms.discount));
    }
  }

  // ----- Monotonicity -----

  lemma {:induction false} ProductMonotone(a: nat, b: nat, c: nat)
    requires a <= b
    ensures 0 <= a * c <= b * c && 0 <= c * a <= c * b
  {
    NonNegativeProduct(a, c);
    NonNegativeProduct(b - a, c);
    assert (b - a) * c == b * c - a * c;
  }

  lemma {:induction false} SellingMonotone(a: int, b: int, marginType: MarginType, m: int, n: int)
    requires a <= b && m <= n
    requires SellingPrice(Some(a), marginType, Some(m)).Ok? && SellingPrice(Some(b), marginType, Some(n)).Ok?
    ensures SellingPrice(Some(a), marginType, Some(m)).value <= SellingPrice(Some(b), marginType, Some(n)).value
  {
    if marginType == PercentageMargin {
      ProductMonotone(a, b, WHOLE + m);
      ProductMonotone(WHOLE + m, WHOLE + n, b);
      RoundingMonotone(a * (WHOLE + m), b * (WHOLE + n), WHOLE);
    }
  }

  lemma {:induction false} FinalMonotone(a: nat, b: nat, discountType: DiscountType, d: int, e: int)
    requires a <= b && e <= d
    requires FinalPrice(a, discountType, Some(d)).Ok? && FinalPrice(b, discountType, Some(e)).Ok?
    ensures FinalPrice(a, discountType, Some(d)).value <= FinalPrice(b, discountType, Some(e)).value
  {
    if discountType == PercentageDiscount {
      ProductMonotone(a, b, WHOLE - d);
      ProductMonotone(WHOLE - d, WHOLE - e, b);
      RoundingMonotone(a * (WHOLE - d), b * (WHOLE - e), WHOLE);
    }
  }

  /** Raising the store price or the margin, or lowering the discount, never lowers a price. */
  lemma {:induction false} PricesMonotone(
    a: int, b: int, marginType: MarginType, m: int, n: int, discountType: DiscountType, d: int, e: int)
    requires a <= b && m <= n && e <= d
    requires Calculate(Some(a), Terms(marginType, Some(m), discountType, Some(d))).Ok?
    requires Calculate(Some(b), Terms(marginType, Some(n), discountType, Some(e))).Ok?
    ensures var low := Calculate(Some(a), Terms(marginType, Some(m), discountType, Some(d))).value;
      var high := Calculate(Some(b), Terms(marginType, Some(n), discountType, Some(e))).value;
      low.selling <= high.selling && low.final <= high.final
  {
    SellingMonotone(a, b, marginType, m, n);
    FinalMonotone(SellingPrice(Some(a), marginType, Some(m)).value, SellingPrice(Some(b), marginType, Some(n)).value,
                  discountType, d, e);
  }

  /** Terms accepted for one store price are accepted for every higher one. */
  lemma {:induction false} AcceptanceUpwardClosed(a: int, b: int, terms: Terms)
    requires a <= b && Calculate(Some(a), terms).Ok?
    ensures Calculate(Some(b), terms).Ok?
  {
    var m, d := terms.margin.value, Amount(terms.discount);
    var low := SellingPrice(Some(a), terms.marginType, terms.margin).value;
    if terms.marginType == PercentageMargin {
      ProductMonotone(a, b, WHOLE + m);
      RoundingMonotone(a * (WHOLE + m), b * (WHOLE + m), WHOLE);
    }
    var high := SellingPrice(Some(b), terms.marginType, terms.margin).value;
    assert low <= high;
    if terms.discountType == PercentageDiscount {
      ProductMonotone(low, high, WHOLE - d);
      RoundingMonotone(low * (WHOLE - d), high * (WHOLE - d), WHOLE);
    }
  }

  // ----- Accuracy -----

  /** Ten thousand times the selling price before rounding; percentages carry two decimals. */
  function RawSelling(storePrice: int, marginType: MarginType, margin: int): int {
    if marginType == PercentageMargin then storePrice * (10000 + margin) else (storePrice + margin) * 10000
  }

  /** A hundred million times the final price, with no rounding anywhere. */
  function RawFinal(storePrice: int, terms: Terms): int {
    var raw := RawSelling(storePrice, terms.marginType, Amount(terms.margin));
    match terms.discountType
    case PercentageDiscount => raw * (10000 - Amount(terms.discount))
    case FixedDiscount => (raw - Amount(terms.discount) * 10000) * 10000
    case _ => raw * 10000
  }

  lemma {:induction false} SellingWithinHalf(storePrice: int, marginType: MarginType, margin: int)
    requires SellingPrice(Some(storePrice), marginType, Some(margin)).Ok?
    ensures var selling := SellingPrice(Some(storePrice), marginType, Some(margin)).value;
      -10000 < 2 * (10000 * selling - RawSelling(storePrice, marginType, margin)) <= 10000
  {
    if marginType == PercentageMargin {
      NonNegativeProduct(storePrice, WHOLE + margin);
    }
  }

  /** |2 * WHOLE * selling - 2 * raw| <= WHOLE survives scaling by a fraction of WHOLE. */
  lemma {:induction false} ScaledError(error: int, keep: int)
    requires 0 <= keep <= WHOLE && -WHOLE <= error <= WHOLE
    ensures -WHOLE * WHOLE <= error * keep <= WHOLE * WHOLE
  {
    NonNegativeProduct(WHOLE - error, keep);
    NonNegativeProduct(WHOLE + error, keep);
    assert (WHOLE - error) * keep == WHOLE * keep - error * keep;
    assert (WHOLE + error) * keep == WHOLE * keep + error * keep;
  }

  /** Two roundings cost at most one paisa against the exact margin-then-discount formula. */
  lemma {:induction false} FinalWithinOnePaisa(storePrice: int, terms: Terms)
    requires Calculate(Some(storePrice), terms).Ok?
    ensures var final := Calculate(Some(storePrice), terms).value.final;
      -100000000 <= 100000000 * final - RawFinal(storePrice, terms) <= 100000000
  {
    var m, d := Amount(terms.margin), Amount(terms.discount);
    var prices := Calculate(Some(storePrice), terms).value;
    var raw := RawSelling(storePrice, terms.marginType, m);
    SellingWithinHalf(storePrice, terms.marginType, m);
    var error := 2 * (WHOLE * prices.selling - raw);
    if terms.discountType == PercentageDiscount {
      var keep := WHOLE - d;
      NonNegativeProduct(prices.selling, keep);
      var rounding := 2 * (WHOLE * prices.final - prices.selling * keep);
      assert -WHOLE < rounding <= WHOLE;
      ScaledError(error, keep);
      assert error * keep == 2 * (WHOLE * (prices.selling * keep) - raw * keep) by {
        Distribute(prices.selling, raw, keep);
      }
      assert 2 * (WHOLE * WHOLE * prices.final - raw * keep) == WHOLE * rounding + error * keep;
    }
  }

  lemma {:induction false} Distribute(selling: int, raw: int, keep: int)
    ensures (2 * (WHOLE * selling - raw)) * keep == 2 * (WHOLE * (selling * keep) - raw * keep)
  {
  }

  // ----- Acceptance -----

  /** `price` is `exact / scale` rounded to the nearest paisa, halves up. */
  predicate RoundsTo(exact: int, scale: int, price: int) {
    -scale < 2 * (scale * price - exact) <= scale
  }

  /** The inputs of a selling price are there, in range and worth at least half a paisa. */
  predicate SellingFits(storePrice: Option<int>, marginType: MarginType, margin: Option<int>) {
    && storePrice.Some? && storePrice.value >= 0 && margin.Some? && margin.value >= 0
    && (marginType == FixedMargin || (marginType == PercentageMargin && margin.value <= 10000))
    && 2 * RawSelling(storePrice.value, marginType, margin.value) >= 10000
  }

  lemma {:induction false} SellingAcceptedIff(storePrice: Option<int>, marginType: MarginType, margin: Option<int>)
    ensures SellingPrice(storePrice, marginType, margin).Ok? <==> SellingFits(storePrice, marginType, margin)
    ensures SellingPrice(storePrice, marginType, margin).Ok? ==>
      SellingPrice(storePrice, marginType, margin).value > 0
      && RoundsTo(RawSelling(storePrice.value, marginType, margin.value), 10000, SellingPrice(storePrice, marginType, margin).value)
  {
    if storePrice.Some? && storePrice.value >= 0 && margin.Some? && margin.value >= 0 && marginType == PercentageMargin {
      NonNegativeProduct(storePrice.value, WHOLE + margin.value);
    }
  }

  /** Ten thousand times the discounted price before rounding. */
  function RawDiscounted(selling: nat, discountType: DiscountType, discount: int): int {
    match discountType
    case PercentageDiscount => selling * (10000 - discount)
    case FixedDiscount => (selling - discount) * 10000
    case _ => selling * 10000
  }

  /** There is no discount, or it is of a known type, in range and leaves at least half a paisa. */
  predicate DiscountFits(selling: nat, discountType: DiscountType, discount: int) {
    || discountType == NoDiscount
    || (&& discount >= 0 && 2 * RawDiscounted(selling, discountType, discount) >= 10000
        && (discountType == FixedDiscount || (discountType == PercentageDiscount && discount <= 10000)))
  }

  lemma {:induction false} FinalAcceptedIff(selling: nat, discountType: DiscountType, discount: Option<int>)
    requires selling > 0
    ensures FinalPrice(selling, discountType, discount).Ok? <==> DiscountFits(selling, discountType, Amount(discount))
    ensures FinalPrice(selling, discountType, discount).Ok? ==>
      RoundsTo(RawDiscounted(selling, discountType, Amount(discount)), 10000, FinalPrice(selling, discountType, discount).value)
  {
    if discountType == PercentageDiscount && 0 <= Amount(discount) <= 10000 {
      NonNegativeProduct(selling, WHOLE - Amount(discount));
    }
  }

  /** A selling price for these inputs is their exact one to the paisa, and the discount fits it. */
  predicate Sells(storePrice: Option<int>, terms: Terms, selling: int) {
    && selling > 0 && SellingFits(storePrice, terms.marginType, terms.margin)
    && RoundsTo(RawSelling(storePrice.value, terms.marginType, terms.margin.value), 10000, selling)
    && DiscountFits(selling, terms.discountType, Amount(terms.discount))
  }

  ghost predicate CanSell(storePrice: Option<int>, terms: Terms) {
    exists selling :: Sells(storePrice, terms, selling)
  }

  /**
   * Prices are accepted if and only if the inputs are there and in range, and neither price rounds to
   * nothing; then the selling price is the exact one to the paisa, and so is the discount on it.
   */
  lemma {:induction false} PricesAcceptedIff(storePrice: Option<int>, terms: Terms)
    ensures Calculate(storePrice, terms).Ok? <==> CanSell(storePrice, terms)
    ensures Calculate(storePrice, terms).Ok? ==>
      var prices := Calculate(storePrice, terms).value;
      && Sells(storePrice, terms, prices.selling)
      && RoundsTo(RawDiscounted(prices.selling, terms.discountType, Amount(terms.discount)), 10000, prices.final)
  {
    SellingAcceptedIff(storePrice, terms.marginType, terms.margin);
    if SellingPrice(storePrice, terms.marginType, terms.margin).Ok? {
      var selling := SellingPrice(storePrice, terms.marginType, terms.margin).value;
      FinalAcceptedIff(selling, terms.discountType, terms.discount);
      assert forall other :: Sells(storePrice, terms, other) ==> other == selling;
      assert Calculate(storePrice, terms).Ok? ==> Sells(storePrice, terms, selling);
    }
  }
}
