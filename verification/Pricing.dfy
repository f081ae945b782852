/** From the lines of an order to the amount charged: delivery fee, discounts and their clamp
    (internal/api/graphql/resolver/order.go:306-384, internal/modules/coupon/domain/coupon.go:148-168),
    the total that is stored (internal/modules/order/infrastructure/repository.go:43-70) and the
    lines sent to Mollie (internal/modules/payment/application/service.go:72-150, 513-537).

    Amounts of lines and totals are integers in units of 1/10000 cent; amounts the source has
    rounded are integers in cents. */
module Pricing {
  import opened Prelude
  import opened Money

  const UNIT: int := 10_000
  const EURO: int := 100 * UNIT

  /** The product lines of an order, as far as pricing goes. */
  datatype Item = Item(total: int, discountable: bool)

  predicate Priced(items: seq<Item>) {
    forall i :: 0 <= i < |items| ==> items[i].total >= 0
  }

  function Total(items: seq<Item>): int {
    if items == [] then 0 else Total(items[..|items| - 1]) + items[|items| - 1].total
  }

  function Discountable(items: seq<Item>): int {
    if items == [] then 0
    else Discountable(items[..|items| - 1]) + if items[|items| - 1].discountable then items[|items| - 1].total else 0
  }

  /** A further line adds its total, and to the discountable ones if it is one of them. */
  lemma OneMoreLine(items: seq<Item>, item: Item)
    ensures Total(items + [item]) == Total(items) + item.total
    ensures Discountable(items + [item]) == Discountable(items) + if item.discountable then item.total else 0
    ensures Total([]) == 0 && Discountable([]) == 0
  {
    assert (items + [item])[..|items|] == items;
  }

  /** Whole euros by distance in metres; beyond 9 km the order is refused before. */
  function DeliveryFee(distance: real): int {
    if distance < 3000.0 then 0
    else if distance < 4000.0 then 1
    else if distance < 5000.0 then 2
    else if distance < 6000.0 then 3
    else if distance < 7000.0 then 4
    else if distance < 8000.0 then 5
    else if distance < 9000.0 then 6
    else 10
  }

  /** Up to 3 km nothing; from there on one euro more with every kilometre, to the refusal at 9 km. */
  lemma FeeByTheKilometre(distance: real)
    requires distance < 9000.0
    ensures DeliveryFee(distance) == 0 <==> distance < 3000.0
    ensures var fee := DeliveryFee(distance);
      fee > 0 ==> 1000.0 * (fee + 2) as real <= distance < 1000.0 * (fee + 3) as real
    ensures DeliveryFee(distance) == if distance < 3000.0 then 0 else (distance / 1000.0).Floor - 2
  {
  }

  // ---------------------------------------------------------------------------
  // Discounts
  // ---------------------------------------------------------------------------

  datatype DiscountType = Percentage | Fixed | Unknown

  /** value: hundredths of a percent, or cents. */
  datatype Coupon = Coupon(kind: DiscountType, value: int)

  /** The coupon's discount on an amount, in units, never more than the amount. */
  ghost function DiscountOf(c: Coupon, amount: int): int {
    match c.kind
    case Percentage => Min(amount, RoundDiv(amount * c.value, 10_000 * UNIT) * UNIT)
    case Fixed => Min(amount, c.value * UNIT)
    case Unknown => 0
  }

  /** Ten percent of the discountable lines, snapped; for pickup orders of 20 euros or more. */
  ghost function Takeaway(items: seq<Item>, total: int, pickup: bool): int {
    if pickup && total >= 20 * EURO then Round10(Discountable(items), 10 * UNIT) else 0
  }

  datatype Discounts = Discounts(takeaway: int, coupon: int)

  /** The quotient of two amounts at the decimal library's sixteen places. */
  const PLACES: int := 10_000_000_000_000_000

  ghost function Ratio(total: int, discounts: int): int
    requires discounts > 0
  {
    RoundDiv(total * PLACES, discounts)
  }

  /** Scaling both discounts down when together they exceed the total. */
  ghost function Clamp(d: Discounts, total: int): Discounts
    requires total >= 0
  {
    if (d.takeaway + d.coupon) * UNIT <= total then d
    else
      var takeaway := Round10(d.takeaway * Ratio(total, (d.takeaway + d.coupon) * UNIT), PLACES);
      Discounts(takeaway, Round10(total - takeaway * UNIT, UNIT))
  }

  method CalculateDiscount(c: Coupon, amount: int) returns (units: int)
    ensures units == DiscountOf(c, amount)
  {
    match c.kind {
      case Percentage =>
        var cents := Round(amount * c.value, 10_000 * UNIT);
        units := if cents * UNIT > amount then amount else cents * UNIT;
      case Fixed =>
        units := if c.value * UNIT > amount then amount else c.value * UNIT;
      case Unknown =>
        units := 0;
    }
  }

  method TakeawayDiscount(items: seq<Item>, total: int, pickup: bool) returns (cents: int)
    ensures cents == Takeaway(items, total, pickup)
  {
    cents := 0;
    if pickup && total >= 20 * EURO {
      var tenfold := 0;
      for i := 0 to |items|
        invariant tenfold == Discountable(items[..i])
      {
        assert items[..i + 1][..i] == items[..i];
        if items[i].discountable {
          tenfold := tenfold + items[i].total;
        }
      }
      assert items[..|items|] == items;
      cents := RoundToNearest10Cents(tenfold, 10 * UNIT);
    }
  }

  method ClampDiscounts(d: Discounts, total: int) returns (clamped: Discounts)
    requires total >= 0
    ensures clamped == Clamp(d, total)
  {
    clamped := d;
    if (d.takeaway + d.coupon) * UNIT > total {
      var ratio := Round(total * PLACES, (d.takeaway + d.coupon) * UNIT);
      var takeaway := RoundToNearest10Cents(d.takeaway * ratio, PLACES);
      var rest := RoundToNearest10Cents(total - takeaway * UNIT, UNIT);
      clamped := Discounts(takeaway, rest);
    }
  }

  method SumLines(items: seq<Item>) returns (total: int)
    ensures total == Total(items)
  {
    total := 0;
    for i := 0 to |items|
      invariant total == Total(items[..i])
    {
      assert items[..i + 1][..i] == items[..i];
      total := total + items[i].total;
    }
    assert items[..|items|] == items;
  }

  method TakenDiscounts(items: seq<Item>, fee: int, pickup: bool, coupon: Option<Coupon>) returns (d: Discounts)
    ensures d == RawDiscounts(items, fee, pickup, coupon)
  {
    var total := SumLines(items);
    total := total + fee;
    var takeaway := TakeawayDiscount(items, total, pickup);
    var fromCoupon := 0;
    if coupon.Some? {
      var units := CalculateDiscount(coupon.value, total);
      fromCoupon := RoundToNearest10Cents(units, UNIT);
    }
    d := Discounts(takeaway, fromCoupon);
  }

  /** The discounts of an order: of its lines, plus fee, with or without a coupon. */
  method ComputeDiscounts(items: seq<Item>, fee: int, pickup: bool, coupon: Option<Coupon>) returns (d: Discounts)
    requires Priced(items) && fee >= 0
    ensures d == OrderDiscounts(items, fee, pickup, coupon)
  {
    TotalIsNonNegative(items);
    var total := SumLines(items);
    d := TakenDiscounts(items, fee, pickup, coupon);
    d := ClampDiscounts(d, total + fee);
  }

  /** The discounts before and after the clamp. */
  ghost function RawDiscounts(items: seq<Item>, fee: int, pickup: bool, coupon: Option<Coupon>): Discounts {
    var total := Total(items) + fee;
    Discounts(Takeaway(items, total, pickup),
              if coupon.Some? then Round10(DiscountOf(coupon.value, total), UNIT) else 0)
  }

  ghost function OrderDiscounts(items: seq<Item>, fee: int, pickup: bool, coupon: Option<Coupon>): Discounts
    requires Priced(items) && fee >= 0
  {
    TotalIsNonNegative(items);
    Clamp(RawDiscounts(items, fee, pickup, coupon), Total(items) + fee)
  }

  lemma {:induction false} TotalIsNonNegative(items: seq<Item>)
    requires Priced(items)
    ensures 0 <= Discountable(items) <= Total(items)
    decreases |items|
  {
    if items != [] {
      TotalIsNonNegative(items[..|items| - 1]);
    }
  }

  /** A coupon takes something between nothing and everything. */
  lemma CouponTakesAtMostAll(c: Coupon, amount: int)
    requires amount >= 0 && c.value >= 0
    ensures 0 <= DiscountOf(c, amount) <= amount
  {
    if c.kind.Percentage? {
      assert amount * c.value >= 0;
      RoundDivSign(amount * c.value, 10_000 * UNIT);
    }
  }

  /** A coupon of a fixed value takes that value from an amount that has it, and else the amount;
      one of an unknown kind takes nothing. The value is in cents. */
  lemma FixedTakesItsValue(value: int, amount: int)
    ensures value * UNIT <= amount ==> DiscountOf(Coupon(Fixed, value), amount) == value * 10_000
    ensures value * UNIT > amount ==> DiscountOf(Coupon(Fixed, value), amount) == amount
    ensures DiscountOf(Coupon(Unknown, value), amount) == 0
  {
  }

  /** A percentage is taken in whole cents, the nearest ones, unless that is more than there is. */
  lemma PercentageTakesItsShare(value: int, amount: int)
    ensures var d := DiscountOf(Coupon(Percentage, value), amount);
      var share := RoundDiv(amount * value, 100_000_000);
      d == (if share * 10_000 <= amount then share * 10_000 else amount)
  {
  }

  /** The takeaway discount is for pickup, from twenty euros on, fee included. */
  lemma TakeawayIsForPickup(items: seq<Item>, total: int, pickup: bool)
    ensures !pickup || total < 2000 * UNIT ==> Takeaway(items, total, pickup) == 0
    ensures pickup && total >= 2000 * UNIT ==> Takeaway(items, total, pickup) == Round10(Discountable(items), 10 * UNIT)
  {
  }

  /** Before they are clamped: the coupon is taken on the lines and the fee, and snapped. */
  lemma WhatIsTaken(items: seq<Item>, fee: int, pickup: bool, coupon: Option<Coupon>)
    ensures RawDiscounts(items, fee, pickup, coupon).takeaway == Takeaway(items, Total(items) + fee, pickup)
    ensures coupon == None ==> RawDiscounts(items, fee, pickup, coupon).coupon == 0
    ensures coupon.Some? ==>
      RawDiscounts(items, fee, pickup, coupon).coupon == Round10(DiscountOf(coupon.value, Total(items) + fee), UNIT)
  {
  }

  /** The clamp leaves discounts alone that do not exceed the total, and never makes one where
      there was none. */
  lemma WhenClamped(d: Discounts, total: int)
    requires total >= 0 && Moderate(d, total)
    ensures (d.takeaway + d.coupon) * UNIT <= total ==> Clamp(d, total) == d
    ensures d.takeaway == 0 ==> Clamp(d, total).takeaway == 0
    ensures d.coupon == 0 ==> Clamp(d, total) == d
  {
    if (d.takeaway + d.coupon) * UNIT > total && d.takeaway == 0 {
      ScaledTakeaway(0, total, d.coupon * UNIT);
    }
  }

  /** So an order without a coupon has no coupon discount, and a delivery no takeaway discount. */
  lemma DiscountsByKind(items: seq<Item>, fee: int, pickup: bool, coupon: Option<Coupon>)
    requires Priced(items) && fee >= 0 && (coupon.Some? ==> coupon.value.value >= 0)
    ensures coupon == None ==> OrderDiscounts(items, fee, pickup, coupon).coupon == 0
    ensures !pickup || Total(items) + fee < 2000 * UNIT ==> OrderDiscounts(items, fee, pickup, coupon).takeaway == 0
    ensures var raw := RawDiscounts(items, fee, pickup, coupon);
      (raw.takeaway + raw.coupon) * UNIT <= Total(items) + fee ==> OrderDiscounts(items, fee, pickup, coupon) == raw
  {
    TotalIsNonNegative(items);
    RawDiscountsAreModerate(items, fee, pickup, coupon);
    WhenClamped(RawDiscounts(items, fee, pickup, coupon), Total(items) + fee);
  }

  /** Discounts fit to be clamped: non-negative multiples of ten cents, and a takeaway
      discount within the total. */
  ghost predicate Moderate(d: Discounts, total: int) {
    OnGrid(d.takeaway) && OnGrid(d.coupon) && 0 <= d.takeaway && d.takeaway * UNIT <= total && 0 <= d.coupon
  }

  lemma TakeawayIsModerate(items: seq<Item>, total: int, pickup: bool)
    requires 0 <= Discountable(items) <= total
    ensures var t := Takeaway(items, total, pickup); OnGrid(t) && 0 <= t && t * UNIT <= total
  {
    Round10NonNegative(Discountable(items), 10 * UNIT);
    Round10Near(Discountable(items), 10 * UNIT);
  }

  /** Up to a whole, a percentage is exact to half a cent. */
  lemma PercentageIsNear(c: Coupon, amount: int)
    requires c.kind.Percentage? && 0 <= c.value <= 10_000 && amount >= 0
    ensures -10_000 * UNIT <= 2 * (10_000 * DiscountOf(c, amount) - amount * c.value) <= 10_000 * UNIT
  {
    RoundDivWithin(amount * c.value, 10_000 * UNIT);
    NoMoreThanWhole(amount, c.value);
  }

  lemma NoMoreThanWhole(amount: int, value: int)
    requires 0 <= value <= 10_000 && amount >= 0
    ensures 0 <= amount * value <= amount * 10_000
  {
  }

  /** The takeaway discount is a tenth of the discountable lines to five and a half cents. */
  lemma TakeawayIsATenth(items: seq<Item>, total: int)
    requires total >= 20 * EURO
    ensures -110 * UNIT <= 2 * (10 * Takeaway(items, total, true) * UNIT - Discountable(items)) <= 110 * UNIT
  {
    Round10Near(Discountable(items), 10 * UNIT);
  }

  lemma SnappedIsNonNegative(units: int)
    requires units >= 0
    ensures OnGrid(Round10(units, UNIT)) && Round10(units, UNIT) >= 0
  {
    Round10NonNegative(units, UNIT);
  }

  /** What the discounts are before they are clamped. A delivery's fee is part of the total. */
  lemma RawDiscountsAreModerate(items: seq<Item>, fee: int, pickup: bool, coupon: Option<Coupon>)
    requires Priced(items) && fee >= 0 && (coupon.Some? ==> coupon.value.value >= 0)
    ensures Moderate(RawDiscounts(items, fee, pickup, coupon), Total(items) + fee)
  {
    var total := Total(items) + fee;
    TotalIsNonNegative(items);
    TakeawayIsModerate(items, total, pickup);
    if coupon.Some? {
      CouponTakesAtMostAll(coupon.value, total);
      SnappedIsNonNegative(DiscountOf(coupon.value, total));
    }
  }

  lemma Shrinks(t: int, ratio: int, whole: int)
    requires t >= 0 && 0 <= ratio <= whole
    ensures 0 <= t * ratio <= t * whole
  {
  }

  /** The clamp's quotient lies between nought and one. */
  lemma RatioIsAFraction(total: int, discounts: int)
    requires 0 <= total <= discounts && discounts > 0
    ensures 0 <= Ratio(total, discounts) <= PLACES
  {
    RoundDivSign(total * PLACES, discounts);
    RoundDivExact(PLACES, discounts);
    RoundDivMonotone(total * PLACES, PLACES * discounts, discounts);
  }

  /** Scaling a takeaway discount down keeps it between nothing and what it was. */
  lemma ScaledTakeaway(takeaway: int, total: int, discounts: int)
    requires 0 <= total <= discounts && discounts > 0 && takeaway >= 0 && OnGrid(takeaway)
    ensures 0 <= Round10(takeaway * Ratio(total, discounts), PLACES) <= takeaway
    ensures OnGrid(Round10(takeaway * Ratio(total, discounts), PLACES))
  {
    var ratio := Ratio(total, discounts);
    RatioIsAFraction(total, discounts);
    Shrinks(takeaway, ratio, PLACES);
    Round10NonNegative(takeaway * ratio, PLACES);
    Round10Fixes(takeaway, PLACES);
    Round10Monotone(takeaway * ratio, takeaway * PLACES, PLACES);
  }

  /** What is left of the total, snapped, complements a takeaway discount exactly. */
  lemma RestComplements(takeaway: int, total: int)
    requires OnGrid(takeaway) && 0 <= takeaway * UNIT <= total
    ensures Round10(total - takeaway * UNIT, UNIT) >= 0
    ensures takeaway + Round10(total - takeaway * UNIT, UNIT) == Round10(total, UNIT)
  {
    Round10NonNegative(total - takeaway * UNIT, UNIT);
    Round10Shift(total - takeaway * UNIT, UNIT, takeaway);
  }

  /** Both discounts are non-negative multiples of ten cents and together stay within the
      snapped total. */
  ghost predicate Fair(d: Discounts, total: int) {
    && OnGrid(d.takeaway)
    && OnGrid(d.coupon)
    && 0 <= d.takeaway
    && 0 <= d.coupon
    && (d.takeaway + d.coupon) <= Round10(total, UNIT)
  }

  predicate Exceeds(d: Discounts, total: int) {
    (d.takeaway + d.coupon) * UNIT > total
  }

  /** Together the discounts are exactly the snapped total. */
  ghost predicate MakesUp(d: Discounts, total: int) {
    d.takeaway + d.coupon == Round10(total, UNIT)
  }

  lemma FairAfterScaling(takeaway: int, total: int)
    requires OnGrid(takeaway) && 0 <= takeaway * UNIT <= total
    ensures var d := Discounts(takeaway, Round10(total - takeaway * UNIT, UNIT));
      Fair(d, total) && MakesUp(d, total)
  {
    RestComplements(takeaway, total);
  }

  lemma FairUnclamped(d: Discounts, total: int)
    requires OnGrid(d.takeaway) && OnGrid(d.coupon) && 0 <= d.takeaway && 0 <= d.coupon && !Exceeds(d, total)
    ensures Fair(d, total)
  {
    Round10Fixes((d.takeaway + d.coupon), UNIT);
    Round10Monotone((d.takeaway + d.coupon) * UNIT, total, UNIT);
  }

  /** The clamp makes discounts fair, and together exactly the snapped total if they
      exceeded the total. The quotient's precision does not matter. */
  lemma ClampIsFair(d: Discounts, total: int)
    requires total >= 0 && Moderate(d, total)
    ensures Fair(Clamp(d, total), total)
    ensures Exceeds(d, total) ==> MakesUp(Clamp(d, total), total)
  {
    if (d.takeaway + d.coupon) * UNIT <= total {
      FairUnclamped(d, total);
    } else {
      ScaledTakeaway(d.takeaway, total, (d.takeaway + d.coupon) * UNIT);
      FairAfterScaling(Clamp(d, total).takeaway, total);
    }
  }

  /** A clamped takeaway discount is its share of the total, to five and a half cents and what
      sixteen decimal places lose of it. */
  lemma ClampIsProportional(d: Discounts, total: int)
    requires total >= 0 && Moderate(d, total) && Exceeds(d, total)
    ensures var sum := (d.takeaway + d.coupon) * UNIT; var lost := (11 * PLACES + d.takeaway) * sum;
      -lost <= 2 * PLACES * (Clamp(d, total).takeaway * sum - d.takeaway * total) <= lost
  {
    var sum := (d.takeaway + d.coupon) * UNIT;
    var ratio := Ratio(total, sum);
    RoundDivWithin(total * PLACES, sum);
    Round10Near(d.takeaway * ratio, PLACES);
    TwoErrors(Clamp(d, total).takeaway, d.takeaway, ratio, total, sum, PLACES);
  }

  lemma TwoErrors(scaled: int, t: int, ratio: int, total: int, sum: int, places: int)
    requires t >= 0 && sum > 0
    requires -11 * places <= 2 * (scaled * places - t * ratio) <= 11 * places
    requires -sum <= 2 * (ratio * sum - total * places) <= sum
    ensures -(11 * places + t) * sum <= 2 * places * (scaled * sum - t * total) <= (11 * places + t) * sum
  {
  }

  /** For every basket, fee and coupon the discounts of the order are fair, and when the raw
      ones exceed the total they make up the snapped total. */
  lemma DiscountsAreFair(items: seq<Item>, fee: int, pickup: bool, coupon: Option<Coupon>)
    requires Priced(items) && fee >= 0 && (coupon.Some? ==> coupon.value.value >= 0)
    ensures Fair(OrderDiscounts(items, fee, pickup, coupon), Total(items) + fee)
    ensures Exceeds(RawDiscounts(items, fee, pickup, coupon), Total(items) + fee) ==>
      MakesUp(OrderDiscounts(items, fee, pickup, coupon), Total(items) + fee)
  {
    var raw, total := RawDiscounts(items, fee, pickup, coupon), Total(items) + fee;
    assert total >= 0 && Moderate(raw, total) by {
      TotalIsNonNegative(items);
      RawDiscountsAreModerate(items, fee, pickup, coupon);
    }
    assert Fair(Clamp(raw, total), total) && (Exceeds(raw, total) ==> MakesUp(Clamp(raw, total), total)) by {
      ClampIsFair(raw, total);
    }
  }

  /** Fair discounts never exceed a total on the ten-cent grid, and exceed a total of whole
      cents by at most five cents. */
  lemma FairDiscountsAgainstTotal(d: Discounts, cents: int)
    requires Fair(d, cents * UNIT)
    ensures (d.takeaway + d.coupon) <= cents + 5
    ensures OnGrid(cents) ==> (d.takeaway + d.coupon) <= cents
  {
    Round10NearCents(cents, UNIT);
    if OnGrid(cents) {
      Round10Fixes(cents, UNIT);
    }
  }

  // ---------------------------------------------------------------------------
  // The stored total
  // ---------------------------------------------------------------------------

  /** An order about to be saved. fee and the product lines are in units, the rest in cents. */
  datatype Order = Order(items: seq<Item>, fee: int, discounts: Discounts, transactionFee: int)
  {
    function Basket(): int { Total(items) + fee }

    predicate Online() { transactionFee == TRANSACTION_FEE }

    /** What every checkout makes sure of, see CheckoutOrdersAreSound. */
    ghost predicate Sound() {
      && Priced(items) && fee >= 0 && Fair(discounts, Basket())
      && (transactionFee == 0 || transactionFee == TRANSACTION_FEE)
    }
  }

  const TRANSACTION_FEE: int := 30

  /** The order a checkout builds. */
  ghost function NewOrder(items: seq<Item>, fee: int, pickup: bool, coupon: Option<Coupon>, online: bool): Order
    requires Priced(items) && fee >= 0
  {
    Order(items, fee, OrderDiscounts(items, fee, pickup, coupon), if online then TRANSACTION_FEE else 0)
  }

  /** An order is charged 30 cents for an online payment and for nothing else, and is due its lines
      and fee, less its discounts, and that. */
  lemma WhatIsDue(items: seq<Item>, fee: int, pickup: bool, coupon: Option<Coupon>, online: bool)
    requires Priced(items) && fee >= 0
    ensures var o := NewOrder(items, fee, pickup, coupon, online);
      && o.items == items && o.fee == fee && o.discounts == OrderDiscounts(items, fee, pickup, coupon)
      && o.transactionFee == (if online then 30 else 0)
      && Due(o) == Total(items) + fee + 10_000 * (o.transactionFee - o.discounts.takeaway - o.discounts.coupon)
  {
  }

  lemma CheckoutOrdersAreSound(items: seq<Item>, fee: int, pickup: bool, coupon: Option<Coupon>, online: bool)
    requires Priced(items) && fee >= 0 && (coupon.Some? ==> coupon.value.value >= 0)
    ensures NewOrder(items, fee, pickup, coupon, online).Sound()
  {
    DiscountsAreFair(items, fee, pickup, coupon);
  }

  /** The sum of everything on the order, in units. */
  function Due(o: Order): int {
    o.Basket() - (o.discounts.takeaway + o.discounts.coupon) * UNIT + o.transactionFee * UNIT
  }

  ghost function StoredTotal(o: Order): int {
    Round10(Due(o), UNIT)
  }

  /** Saving recomputes the total from the lines and snaps it. */
  method ComputeTotal(o: Order) returns (cents: int)
    requires (o.discounts.takeaway + o.discounts.coupon) >= 0 && o.transactionFee >= 0
    ensures cents == StoredTotal(o)
  {
    var computed := SumLines(o.items);
    computed := computed + o.fee;
    var totalDiscount := o.discounts.takeaway + o.discounts.coupon;
    if totalDiscount > 0 {
      computed := computed - totalDiscount * UNIT;
    }
    if o.transactionFee > 0 {
      computed := computed + o.transactionFee * UNIT;
    }
    cents := RoundToNearest10Cents(computed, UNIT);
  }

  /** Where snapping puts a sum by its sign. */
  lemma Round10Sign(n: int)
    ensures Round10(n, UNIT) < 0 <==> 2 * n <= -9 * UNIT
    ensures 2 * n > -29 * UNIT ==> Round10(n, UNIT) >= -10
    ensures 2 * n >= 9 * UNIT ==> Round10(n, UNIT) > 0
  {
    RoundDivWithin(n, UNIT);
    RoundDivWithin(RoundDiv(n, UNIT), 10);
  }

  /** The stored total is a multiple of ten cents, is never below minus ten cents, and is
      positive on every order paid online. It is negative exactly on cash orders whose
      discounts exceed what they are taken from by 4.5 cents or more. */
  lemma StoredTotalBounds(o: Order)
    requires o.Sound()
    ensures OnGrid(StoredTotal(o)) && StoredTotal(o) >= -10
    ensures o.Online() ==> StoredTotal(o) > 0
    ensures StoredTotal(o) < 0 <==>
      !o.Online() && 2 * ((o.discounts.takeaway + o.discounts.coupon) * UNIT - o.Basket()) >= 9 * UNIT
  {
    BoundsOf(o.Basket(), o.discounts.takeaway + o.discounts.coupon, o.transactionFee);
  }

  lemma BoundsOf(basket: int, off: int, extra: int)
    requires off <= Round10(basket, UNIT) && (extra == 0 || extra == TRANSACTION_FEE)
    ensures var total := Round10(basket - off * UNIT + extra * UNIT, UNIT);
      && OnGrid(total) && total >= -10 && (extra > 0 ==> total > 0)
      && (total < 0 <==> extra == 0 && 2 * (off * UNIT - basket) >= 9 * UNIT)
  {
    Round10Near(basket, UNIT);
    Round10Sign(basket - off * UNIT + extra * UNIT);
  }

  /** When all components are on the grid, snapping changes nothing and the total is not
      negative. */
  lemma StoredTotalOnGrid(o: Order)
    requires o.Sound()
    requires (forall i :: 0 <= i < |o.items| ==> o.items[i].total % (10 * UNIT) == 0) && o.fee % (10 * UNIT) == 0
    ensures StoredTotal(o) * UNIT == Due(o) >= 0
  {
    var tens := TotalOnGrid(o.items);
    var feeTens := o.fee / (10 * UNIT);
    assert o.fee == feeTens * (10 * UNIT);
    DueOnGrid(o, 10 * (tens + feeTens));
  }

  lemma DueOnGrid(o: Order, cents: int)
    requires o.Sound() && o.Basket() == cents * UNIT && OnGrid(cents)
    ensures StoredTotal(o) * UNIT == Due(o) >= 0
  {
    var rest := cents - (o.discounts.takeaway + o.discounts.coupon) + o.transactionFee;
    assert rest >= 0 by {
      FairDiscountsAgainstTotal(o.discounts, cents);
    }
    GridSum(cents, o.discounts.takeaway, o.discounts.coupon, o.transactionFee);
    SnapIsExact(Due(o), rest);
  }

  lemma GridSum(a: int, b: int, c: int, d: int)
    requires OnGrid(a) && OnGrid(b) && OnGrid(c) && OnGrid(d)
    ensures OnGrid(a - (b + c) + d)
  {
  }

  lemma SnapIsExact(n: int, cents: int)
    requires n == cents * UNIT && OnGrid(cents)
    ensures Round10(n, UNIT) * UNIT == n
  {
    Round10Fixes(cents, UNIT);
  }

  lemma {:induction false} TotalOnGrid(items: seq<Item>) returns (tens: int)
    requires forall i :: 0 <= i < |items| ==> items[i].total % (10 * UNIT) == 0
    ensures Total(items) == tens * (10 * UNIT)
    decreases |items|
  {
    tens := 0;
    if items != [] {
      tens := TotalOnGrid(items[..|items| - 1]);
      tens := tens + items[|items| - 1].total / (10 * UNIT);
    }
  }

  /** A fixed coupon for everything, on a delivery paid in cash, leaves a total of nothing,
      or of minus ten cents when the basket ends on five cents. */
  lemma FullCouponInCash(items: seq<Item>, fee: int, value: int, cents: int)
    requires Priced(items) && fee >= 0 && Total(items) + fee == cents * UNIT && value >= cents
    ensures StoredTotal(NewOrder(items, fee, false, Some(Coupon(Fixed, value)), false)) ==
      if cents % 10 == 5 then -10 else 0
  {
    var coupon := Coupon(Fixed, value);
    TotalIsNonNegative(items);
    assert DiscountOf(coupon, cents * UNIT) == cents * UNIT;
    var off := Round10(cents * UNIT, UNIT);
    FullClamp(off, cents);
    assert OrderDiscounts(items, fee, false, Some(coupon)) == Discounts(0, off);
    RemainderOfFull(cents);
  }

  lemma FullClamp(off: int, cents: int)
    requires cents >= 0 && off == Round10(cents * UNIT, UNIT)
    ensures Clamp(Discounts(0, off), cents * UNIT) == Discounts(0, off)
  {
    if off * UNIT > cents * UNIT {
      ScaledTakeaway(0, cents * UNIT, off * UNIT);
    }
  }

  lemma RemainderOfFull(cents: int)
    requires cents >= 0
    ensures Round10(cents * UNIT - Round10(cents * UNIT, UNIT) * UNIT, UNIT) == if cents % 10 == 5 then -10 else 0
  {
    RoundDivExact(cents, UNIT);
    RoundDivWithin(cents, 10);
    var rest := cents - 10 * RoundDiv(cents, 10);
    assert -5 <= rest < 5 && (rest == -5 <==> cents % 10 == 5);
    RoundDivExact(rest, UNIT);
    RoundDivWithin(rest, 10);
  }

  // ---------------------------------------------------------------------------
  // The lines sent to Mollie
  // ---------------------------------------------------------------------------

  datatype LineType = PhysicalProduct | ShippingFee | Discount | Surcharge

  /** total in cents, as Mollie sees it. */
  datatype PaymentLine = PaymentLine(kind: LineType, total: int)

  function LineSum(lines: seq<PaymentLine>): int {
    if lines == [] then 0 else LineSum(lines[..|lines| - 1]) + lines[|lines| - 1].total
  }

  /** The line that absorbs the gap between the charged total and the other lines. */
  method RoundingCorrectionLine(total: int, lines: seq<PaymentLine>) returns (corr: Option<PaymentLine>)
    ensures corr.None? <==> LineSum(lines) == total
    ensures corr.Some? ==>
      && corr.value.total == total - LineSum(lines)
      && corr.value.kind == if corr.value.total < 0 then Discount else Surcharge
  {
    var sum := 0;
    for i := 0 to |lines|
      invariant sum == LineSum(lines[..i])
    {
      assert lines[..i + 1][..i] == lines[..i];
      sum := sum + lines[i].total;
    }
    assert lines[..|lines|] == lines;
    var diff := total - sum;
    if diff == 0 {
      return None;
    }
    corr := Some(PaymentLine(if diff < 0 then Discount else Surcharge, diff));
  }

  ghost function ProductLines(items: seq<Item>): seq<PaymentLine> {
    if items == [] then []
    else ProductLines(items[..|items| - 1]) +
         [PaymentLine(PhysicalProduct, RoundDiv(items[|items| - 1].total, UNIT))]
  }

  /** The lines before the correction: each component that is not zero, in cents. */
  ghost function ComponentLines(o: Order): seq<PaymentLine> {
    WithRest(ProductLines(o.items) + (if o.fee != 0 then [PaymentLine(ShippingFee, RoundDiv(o.fee, UNIT))] else []),
             o.discounts, o.transactionFee)
  }

  function WithRest(lines: seq<PaymentLine>, d: Discounts, extra: int): seq<PaymentLine> {
    lines + (if d.takeaway > 0 then [PaymentLine(Discount, -d.takeaway)] else []) +
    (if d.coupon > 0 then [PaymentLine(Discount, -d.coupon)] else []) +
    (if extra > 0 then [PaymentLine(Surcharge, extra)] else [])
  }

  method CreateComponentLines(o: Order) returns (lines: seq<PaymentLine>)
    ensures lines == ComponentLines(o)
  {
    lines := [];
    for i := 0 to |o.items|
      invariant lines == ProductLines(o.items[..i])
    {
      assert o.items[..i + 1][..i] == o.items[..i];
      var cents := Round(o.items[i].total, UNIT);
      lines := lines + [PaymentLine(PhysicalProduct, cents)];
    }
    assert o.items[..|o.items|] == o.items;
    if o.fee != 0 {
      var cents := Round(o.fee, UNIT);
      lines := lines + [PaymentLine(ShippingFee, cents)];
    }
    if o.discounts.takeaway > 0 {
      lines := lines + [PaymentLine(Discount, -o.discounts.takeaway)];
    }
    if o.discounts.coupon > 0 {
      lines := lines + [PaymentLine(Discount, -o.discounts.coupon)];
    }
    if o.transactionFee > 0 {
      lines := lines + [PaymentLine(Surcharge, o.transactionFee)];
    }
  }

  /** What the lines of one kind add up to. */
  function SumOfKind(lines: seq<PaymentLine>, kind: LineType): int {
    if lines == [] then 0
    else
      var last := lines[|lines| - 1];
      SumOfKind(lines[..|lines| - 1], kind) + if last.kind == kind then last.total else 0
  }

  lemma {:induction false} ProductLinesAre(items: seq<Item>)
    ensures |ProductLines(items)| == |items|
    ensures forall i :: 0 <= i < |items| ==>
      ProductLines(items)[i] == PaymentLine(PhysicalProduct, RoundDiv(items[i].total, UNIT))
    decreases |items|
  {
    if items != [] {
      ProductLinesAre(items[..|items| - 1]);
    }
  }

  lemma KindWithLineIf(lines: seq<PaymentLine>, present: bool, l: PaymentLine, kind: LineType)
    ensures var more := lines + if present then [l] else [];
      SumOfKind(more, kind) == SumOfKind(lines, kind) + if present && l.kind == kind then l.total else 0
  {
    if present {
      assert (lines + [l])[..|lines|] == lines;
    } else {
      assert lines + [] == lines;
    }
  }

  lemma {:induction false} OnlyProducts(items: seq<Item>, kind: LineType)
    ensures SumOfKind(ProductLines(items), kind) == if kind == PhysicalProduct then LineSum(ProductLines(items)) else 0
    decreases |items|
  {
    if items != [] {
      OnlyProducts(items[..|items| - 1], kind);
      OneMoreProduct(ProductLines(items[..|items| - 1]), RoundDiv(items[|items| - 1].total, UNIT), kind);
    }
  }

  lemma OneMoreProduct(lines: seq<PaymentLine>, cents: int, kind: LineType)
    ensures var more := lines + [PaymentLine(PhysicalProduct, cents)];
      && LineSum(more) == LineSum(lines) + cents
      && SumOfKind(more, kind) == SumOfKind(lines, kind) + if kind == PhysicalProduct then cents else 0
  {
    assert (lines + [PaymentLine(PhysicalProduct, cents)])[..|lines|] == lines;
  }

  /** The products come first, one line each to the nearest cent, and then a line for whatever there
      is of the rest. */
  lemma ProductsFirst(o: Order)
    ensures |ComponentLines(o)| == |o.items| + (if o.fee != 0 then 1 else 0) + (if o.discounts.takeaway > 0 then 1 else 0) +
                                   (if o.discounts.coupon > 0 then 1 else 0) + (if o.transactionFee > 0 then 1 else 0)
    ensures forall i :: 0 <= i < |o.items| ==>
      ComponentLines(o)[i] == PaymentLine(PhysicalProduct, RoundDiv(o.items[i].total, 10_000))
  {
    ProductLinesAre(o.items);
  }

  lemma ThreeMoreOfKind(lines: seq<PaymentLine>, b: bool, k: PaymentLine, c: bool, l: PaymentLine,
                        d: bool, m: PaymentLine, kind: LineType)
    ensures SumOfKind(lines + (if b then [k] else []) + (if c then [l] else []) + (if d then [m] else []), kind)
         == SumOfKind(lines, kind) + (if b && k.kind == kind then k.total else 0) +
            (if c && l.kind == kind then l.total else 0) + (if d && m.kind == kind then m.total else 0)
  {
    KindWithLineIf(lines, b, k, kind);
    KindWithLineIf(lines + (if b then [k] else []), c, l, kind);
    KindWithLineIf(lines + (if b then [k] else []) + (if c then [l] else []), d, m, kind);
  }

  lemma KindOfRest(lines: seq<PaymentLine>, d: Discounts, extra: int, kind: LineType)
    ensures SumOfKind(WithRest(lines, d, extra), kind) == SumOfKind(lines, kind) +
      (if d.takeaway > 0 && Discount == kind then -d.takeaway else 0) +
      (if d.coupon > 0 && Discount == kind then -d.coupon else 0) +
      (if extra > 0 && Surcharge == kind then extra else 0)
  {
    ThreeMoreOfKind(lines, d.takeaway > 0, PaymentLine(Discount, -d.takeaway), d.coupon > 0, PaymentLine(Discount, -d.coupon),
                    extra > 0, PaymentLine(Surcharge, extra), kind);
  }

  lemma KindOfFee(o: Order, kind: LineType)
    ensures SumOfKind(ProductLines(o.items) + (if o.fee != 0 then [PaymentLine(ShippingFee, RoundDiv(o.fee, UNIT))] else []), kind)
         == SumOfKind(ProductLines(o.items), kind) + if o.fee != 0 && kind == ShippingFee then RoundDiv(o.fee, UNIT) else 0
  {
    KindWithLineIf(ProductLines(o.items), o.fee != 0, PaymentLine(ShippingFee, RoundDiv(o.fee, UNIT)), kind);
  }

  lemma KindOfComponents(o: Order, kind: LineType)
    ensures SumOfKind(ComponentLines(o), kind) ==
      (if kind == PhysicalProduct then LineSum(ProductLines(o.items)) else 0) +
      (if o.fee != 0 && kind == ShippingFee then RoundDiv(o.fee, UNIT) else 0) +
      (if o.discounts.takeaway > 0 && kind == Discount then -o.discounts.takeaway else 0) +
      (if o.discounts.coupon > 0 && kind == Discount then -o.discounts.coupon else 0) +
      (if o.transactionFee > 0 && kind == Surcharge then o.transactionFee else 0)
  {
    OnlyProducts(o.items, kind);
    KindOfFee(o, kind);
    KindOfRest(ProductLines(o.items) + (if o.fee != 0 then [PaymentLine(ShippingFee, RoundDiv(o.fee, UNIT))] else []),
               o.discounts, o.transactionFee, kind);
  }

  /** The lines say what they are for: products are products, the fee is shipping, the discounts
      are discounts and the transaction fee is a surcharge. */
  lemma ComponentsByKind(o: Order)
    requires o.discounts.takeaway >= 0 && o.discounts.coupon >= 0 && o.transactionFee >= 0
    ensures SumOfKind(ComponentLines(o), PhysicalProduct) == LineSum(ProductLines(o.items))
    ensures SumOfKind(ComponentLines(o), ShippingFee) == if o.fee == 0 then 0 else RoundDiv(o.fee, 10_000)
    ensures SumOfKind(ComponentLines(o), Discount) == -(o.discounts.takeaway + o.discounts.coupon)
    ensures SumOfKind(ComponentLines(o), Surcharge) == o.transactionFee
  {
    KindOfComponents(o, PhysicalProduct);
    KindOfComponents(o, ShippingFee);
    KindOfComponents(o, Discount);
    KindOfComponents(o, Surcharge);
  }

  /** What Mollie requires of a payment: its lines add up to its amount, exactly. A line is
      added to the components only when they do not. */
  ghost predicate LinesFor(o: Order, charged: int, lines: seq<PaymentLine>) {
    && LineSum(lines) == charged
    && (LineSum(ComponentLines(o)) == charged ==> lines == ComponentLines(o))
    && (LineSum(ComponentLines(o)) != charged ==>
          && |lines| == |ComponentLines(o)| + 1 && lines[..|lines| - 1] == ComponentLines(o)
          && lines[|lines| - 1].kind == if charged < LineSum(ComponentLines(o)) then Discount else Surcharge)
  }

  method CreatePaymentLines(o: Order, charged: int) returns (lines: seq<PaymentLine>)
    ensures LinesFor(o, charged, lines)
  {
    lines := CreateComponentLines(o);
    var corr := RoundingCorrectionLine(charged, lines);
    if corr.Some? {
      LineSumAppend(lines, [corr.value]);
      assert [corr.value][..0] == [];
      lines := lines + [corr.value];
    }
  }

  lemma {:induction false} LineSumAppend(a: seq<PaymentLine>, b: seq<PaymentLine>)
    ensures LineSum(a + b) == LineSum(a) + LineSum(b)
    decreases |b|
  {
    if b == [] {
      assert a + b == a;
    } else {
      LineSumAppend(a, b[..|b| - 1]);
      assert (a + b)[..|a + b| - 1] == a + b[..|b| - 1];
    }
  }

  /** A product line's amount is off by half a cent at most, and exact on whole cents. */
  lemma {:induction false} ProductLineSum(items: seq<Item>)
    ensures -|items| * UNIT <= 2 * (LineSum(ProductLines(items)) * UNIT - Total(items)) <= |items| * UNIT
    ensures (forall i :: 0 <= i < |items| ==> items[i].total % UNIT == 0) ==>
      LineSum(ProductLines(items)) * UNIT == Total(items)
    decreases |items|
  {
    if items != [] {
      var front, last := items[..|items| - 1], items[|items| - 1];
      ProductLineSum(front);
      var line := PaymentLine(PhysicalProduct, RoundDiv(last.total, UNIT));
      assert (ProductLines(front) + [line])[..|ProductLines(front)|] == ProductLines(front);
      RoundDivWithin(last.total, UNIT);
      if last.total % UNIT == 0 {
        RoundDivExact(last.total / UNIT, UNIT);
      }
    }
  }

  lemma {:induction false} SumsByKind(lines: seq<PaymentLine>)
    ensures LineSum(lines) == SumOfKind(lines, PhysicalProduct) + SumOfKind(lines, ShippingFee) +
                              SumOfKind(lines, Discount) + SumOfKind(lines, Surcharge)
    decreases |lines|
  {
    if lines != [] {
      SumsByKind(lines[..|lines| - 1]);
    }
  }

  lemma ComponentLineSum(o: Order)
    requires o.discounts.takeaway >= 0 && o.discounts.coupon >= 0 && o.transactionFee >= 0
    ensures LineSum(ComponentLines(o)) ==
      LineSum(ProductLines(o.items)) + (if o.fee != 0 then RoundDiv(o.fee, UNIT) else 0) -
      (o.discounts.takeaway + o.discounts.coupon) + o.transactionFee
  {
    SumsByKind(ComponentLines(o));
    ComponentsByKind(o);
  }

  /** The components differ from what is due by the rounding of the product lines only. */
  lemma ComponentSum(o: Order)
    requires o.fee % UNIT == 0 && o.discounts.takeaway >= 0 && o.discounts.coupon >= 0 && o.transactionFee >= 0
    ensures LineSum(ComponentLines(o)) * UNIT - Due(o) == LineSum(ProductLines(o.items)) * UNIT - Total(o.items)
  {
    ComponentLineSum(o);
    RoundDivExact(o.fee / UNIT, UNIT);
  }

  /** The correction is at most five cents when all lines are whole cents; in general at
      most 5.5 cents and another half cent for each product line. */
  lemma CorrectionIsSmall(o: Order)
    requires o.fee % UNIT == 0 && o.discounts.takeaway >= 0 && o.discounts.coupon >= 0 && o.transactionFee >= 0
    ensures -(11 + |o.items|) <= 2 * (StoredTotal(o) - LineSum(ComponentLines(o))) <= 11 + |o.items|
    ensures (forall i :: 0 <= i < |o.items| ==> o.items[i].total % UNIT == 0) ==>
      -5 <= StoredTotal(o) - LineSum(ComponentLines(o)) <= 5
  {
    ComponentSum(o);
    ProductLineSum(o.items);
    Round10Near(Due(o), UNIT);
    if forall i :: 0 <= i < |o.items| ==> o.items[i].total % UNIT == 0 {
      Round10NearCents(Due(o) / UNIT, UNIT);
    }
  }
}
