/** A whole checkout: items priced, discounts taken, the total stored and the payment's lines
    built (internal/api/graphql/resolver/order.go:93-384 and what it calls). */
module Checkout {
  import opened Prelude
  import Basket
  import opened Pricing

  /** What the shop sells: prices and choices, the products that count for the takeaway
      discount, and those that are for weekday lunch only. */
  datatype Menu = Menu(catalog: Basket.Catalog, discountable: set<Basket.ProductId>, lunchOnly: set<Basket.ProductId>)

  /** distance: in metres. excluded: the address lies in an area that is not served. */
  datatype Address = Address(distance: real, excluded: bool)

  /** A delivery's address is None when none was given or it could not be resolved. */
  datatype Destination = Pickup | Delivery(address: Option<Address>)

  /** What validating the coupon code answers, and whether another order of the user still
      holds a coupon. */
  datatype CouponAnswer = NoCoupon | NotValid | Valid(coupon: Coupon, active: bool)

  /** lunchAllowed: the requested time is one for lunch-only products. */
  datatype Request = Request(items: seq<Basket.Item>, lunchAllowed: bool, destination: Destination,
                             coupon: CouponAnswer, online: bool)

  datatype Refusal =
    | NoItems
    | TooManyItems
    | LunchOnly
    | BadItem(error: Basket.Error)
    | BelowDeliveryMinimum
    | NoAddress
    | TooFar
    | ExcludedArea
    | InvalidCoupon
    | AnotherCouponOrder

  datatype Receipt = Receipt(order: Order, charged: int, lines: seq<PaymentLine>)

  datatype Result = Accepted(receipt: Receipt) | Refused(why: Refusal)

  predicate Servable(menu: Menu, q: Request) {
    && ItemsServable(menu, q)
    && (q.destination.Delivery? ==>
          && Basket.Subtotal(menu.catalog, q.items) >= 25 * EURO
          && q.destination.address.Some? && Reached(q.destination.address.value))
    && (q.coupon == NoCoupon || (q.coupon.Valid? && !q.coupon.active))
  }

  predicate ItemsServable(menu: Menu, q: Request) {
    && 1 <= |q.items| <= 50
    && (forall i :: 0 <= i < |q.items| ==> Basket.Acceptable(menu.catalog, q.items[i]))
    && (q.lunchAllowed || forall i :: 0 <= i < |q.items| ==> q.items[i].product !in menu.lunchOnly)
  }

  predicate IsLunchOnly(menu: Menu, item: Basket.Item) {
    item.product in menu.catalog.prices && item.product in menu.lunchOnly
  }

  predicate Reached(a: Address) {
    a.distance < 9000.0 && !a.excluded
  }

  /** What each refusal says. */
  ghost predicate Grounds(menu: Menu, q: Request, why: Refusal) {
    match why
    case NoItems => q.items == []
    case TooManyItems => |q.items| > 50
    case LunchOnly => !q.lunchAllowed && exists item :: item in q.items && IsLunchOnly(menu, item)
    case BadItem(error) => exists item :: item in q.items && Basket.Wrong(menu.catalog, item, error)
    case BelowDeliveryMinimum =>
      q.destination.Delivery? && Orderly(menu, q) && Basket.Worth(menu.catalog, q.items) < 2500 * 10_000
    case NoAddress => q.destination == Delivery(None)
    case TooFar => q.destination.Delivery? && q.destination.address.Some? && q.destination.address.value.distance >= 9000.0
    case ExcludedArea => q.destination.Delivery? && q.destination.address.Some? && q.destination.address.value.excluded
    case InvalidCoupon => q.coupon == NotValid
    case AnotherCouponOrder => q.coupon.Valid? && q.coupon.active
  }

  /** The order in which the grounds are looked into. */
  function Rank(why: Refusal): nat {
    match why
    case NoItems => 0
    case TooManyItems => 1
    case LunchOnly => 2
    case BadItem(_) => 3
    case BelowDeliveryMinimum => 4
    case NoAddress => 5
    case TooFar => 6
    case ExcludedArea => 7
    case InvalidCoupon => 8
    case AnotherCouponOrder => 9
  }

  /** These are the first grounds there are. */
  ghost predicate FirstGrounds(menu: Menu, q: Request, why: Refusal) {
    Grounds(menu, q, why) && forall other :: Rank(other) < Rank(why) ==> !Grounds(menu, q, other)
  }

  /** The products and choices asked for are known. */
  predicate Orderly(menu: Menu, q: Request) {
    forall i :: 0 <= i < |q.items| ==>
      q.items[i].product in menu.catalog.prices && Basket.Known(menu.catalog, Basket.Wishes(q.items[i]))
  }

  /** A request is servable exactly when there are no grounds to refuse it. */
  lemma ServableMeansNoGrounds(menu: Menu, q: Request)
    ensures Servable(menu, q) <==> forall why :: !Grounds(menu, q, why)
  {
    if Servable(menu, q) {
      forall why
        ensures !Grounds(menu, q, why)
      {
        NoGrounds(menu, q, why);
      }
    } else {
      var why := SomeGrounds(menu, q);
    }
  }

  lemma NoGrounds(menu: Menu, q: Request, why: Refusal)
    requires Servable(menu, q)
    ensures !Grounds(menu, q, why)
  {
    if Rank(why) <= 3 {
      ItemsAreNoGrounds(menu, q, why);
    } else {
      Basket.SubtotalIsWorth(menu.catalog, q.items);
    }
  }

  lemma ItemsAreNoGrounds(menu: Menu, q: Request, why: Refusal)
    requires ItemsServable(menu, q) && Rank(why) <= 3
    ensures !Grounds(menu, q, why)
  {
    forall item | item in q.items
      ensures Basket.Acceptable(menu.catalog, item) && (q.lunchAllowed || item.product !in menu.lunchOnly)
    {
      var i :| 0 <= i < |q.items| && q.items[i] == item;
    }
    if why.BadItem? {
      forall item | item in q.items
        ensures !Basket.Wrong(menu.catalog, item, why.error)
      {
        Basket.AcceptableMeansNothingWrong(menu.catalog, item);
      }
    }
  }

  lemma SomeGrounds(menu: Menu, q: Request) returns (why: Refusal)
    requires !Servable(menu, q)
    ensures Grounds(menu, q, why)
  {
    if |q.items| == 0 {
      why := NoItems;
    } else if |q.items| > 50 {
      why := TooManyItems;
    } else if i :| 0 <= i < |q.items| && !Basket.Acceptable(menu.catalog, q.items[i]) {
      var e := Basket.SomethingIsWrong(menu.catalog, q.items[i]);
      why := BadItem(e);
    } else if !ItemsServable(menu, q) {
      var i :| 0 <= i < |q.items| && q.items[i].product in menu.lunchOnly;
      assert IsLunchOnly(menu, q.items[i]);
      why := LunchOnly;
    } else if !(q.coupon == NoCoupon || (q.coupon.Valid? && !q.coupon.active)) {
      why := if q.coupon == NotValid then InvalidCoupon else AnotherCouponOrder;
    } else {
      Basket.SubtotalIsWorth(menu.catalog, q.items);
      why := if q.destination.address.None? then NoAddress
             else if q.destination.address.value.excluded then ExcludedArea
             else if q.destination.address.value.distance >= 9000.0 then TooFar
             else BelowDeliveryMinimum;
    }
  }

  function Fee(q: Request): int {
    if q.destination.Delivery? && q.destination.address.Some?
    then DeliveryFee(q.destination.address.value.distance) * EURO
    else 0
  }

  function Taken(q: Request): Option<Coupon> {
    if q.coupon.Valid? then Some(q.coupon.coupon) else None
  }

  /** The product lines as pricing sees them. */
  method ToItems(discountable: set<Basket.ProductId>, lines: seq<Basket.Line>) returns (items: seq<Item>)
    ensures |items| == |lines| && Total(items) == Basket.LineSum(lines)
    ensures forall i :: 0 <= i < |lines| ==> items[i] == Item(lines[i].total, lines[i].product in discountable)
  {
    items := [];
    for i := 0 to |lines|
      invariant |items| == i && Total(items) == Basket.LineSum(lines[..i])
      invariant forall j :: 0 <= j < i ==> items[j] == Item(lines[j].total, lines[j].product in discountable)
    {
      var item := Item(lines[i].total, lines[i].product in discountable);
      assert (items + [item])[..i] == items;
      assert lines[..i + 1][..i] == lines[..i];
      items := items + [item];
    }
    assert lines[..|lines|] == lines;
  }

  /** Discounts, the amount charged and the lines of an online payment. */
  method Settle(items: seq<Item>, fee: int, pickup: bool, coupon: Option<Coupon>, online: bool) returns (r: Receipt)
    requires Priced(items) && fee >= 0 && (coupon.Some? ==> coupon.value.value >= 0)
    ensures r.order == NewOrder(items, fee, pickup, coupon, online) && r.order.Sound()
    ensures r.charged == StoredTotal(r.order)
    ensures if online then LinesFor(r.order, r.charged, r.lines) else r.lines == []
  {
    var discounts := ComputeDiscounts(items, fee, pickup, coupon);
    var order := Order(items, fee, discounts, if online then TRANSACTION_FEE else 0);
    CheckoutOrdersAreSound(items, fee, pickup, coupon, online);
    var charged := ComputeTotal(order);
    var lines := [];
    if online {
      lines := CreatePaymentLines(order, charged);
    }
    r := Receipt(order, charged, lines);
  }

  /** Whether the items have a lunch-only product of the shop, at a time not for them. */
  method LunchOnlyRefusal(menu: Menu, q: Request) returns (refused: bool)
    ensures refused <==> Grounds(menu, q, LunchOnly)
  {
    refused := false;
    if !q.lunchAllowed {
      for i := 0 to |q.items|
        invariant forall j :: 0 <= j < i ==> !IsLunchOnly(menu, q.items[j])
      {
        if IsLunchOnly(menu, q.items[i]) {
          return true;
        }
      }
    }
  }

  lemma FirstBadItem(menu: Menu, q: Request, e: Basket.Error)
    requires |q.items| <= 50 && !Grounds(menu, q, LunchOnly)
    requires exists i :: Basket.FirstWrong(menu.catalog, q.items, i, e)
    ensures FirstGrounds(menu, q, BadItem(e)) && !ItemsServable(menu, q)
  {
    var i :| Basket.FirstWrong(menu.catalog, q.items, i, e);
    Basket.AcceptableMeansNothingWrong(menu.catalog, q.items[i]);
  }

  lemma NoneForLunchOnly(menu: Menu, q: Request)
    requires 1 <= |q.items| <= 50 && !Grounds(menu, q, LunchOnly)
    requires forall i :: 0 <= i < |q.items| ==> Basket.Acceptable(menu.catalog, q.items[i])
    ensures ItemsServable(menu, q)
  {
    assert forall i :: 0 <= i < |q.items| && q.items[i].product in menu.lunchOnly ==> IsLunchOnly(menu, q.items[i]);
  }

  lemma FirstLunchOnly(menu: Menu, q: Request)
    requires |q.items| <= 50 && Grounds(menu, q, LunchOnly)
    ensures FirstGrounds(menu, q, LunchOnly) && !ItemsServable(menu, q)
  {
    var item :| item in q.items && IsLunchOnly(menu, item);
    var i :| 0 <= i < |q.items| && q.items[i] == item;
  }

  /** The product lines a request is priced at. */
  ghost predicate PricedAs(menu: Menu, q: Request, items: seq<Item>)
    requires ItemsServable(menu, q)
  {
    && |items| == |q.items| && Priced(items) && Total(items) == Basket.Subtotal(menu.catalog, q.items)
    && forall i :: 0 <= i < |q.items| ==>
         items[i] == Item(Basket.Price(menu.catalog, q.items[i]), q.items[i].product in menu.discountable)
  }

  /** The product lines of a request whose items can be served, or why they cannot. */
  method PriceRequest(menu: Menu, q: Request) returns (items: seq<Item>, why: Option<Refusal>)
    ensures why.None? <==> ItemsServable(menu, q)
    ensures why.Some? ==> FirstGrounds(menu, q, why.value)
    ensures why.None? ==> PricedAs(menu, q, items)
  {
    items := [];
    if |q.items| == 0 {
      return items, Some(NoItems);
    }
    if |q.items| > 50 {
      return items, Some(TooManyItems);
    }
    var refused := LunchOnlyRefusal(menu, q);
    if refused {
      FirstLunchOnly(menu, q);
      return items, Some(LunchOnly);
    }
    var lines, total, error := Basket.PriceItems(menu.catalog, q.items);
    if error.Some? {
      FirstBadItem(menu, q, error.value);
      return items, Some(BadItem(error.value));
    }
    NoneForLunchOnly(menu, q);
    Basket.LineSumIsSubtotal(menu.catalog, q.items, lines);
    items := ToItems(menu.discountable, lines);
    why := None;
  }

  /** Delivery minimum, address and coupon. */
  method CheckTerms(menu: Menu, q: Request, total: int) returns (why: Option<Refusal>)
    requires Orderly(menu, q) && total == Basket.Worth(menu.catalog, q.items)
    ensures why.Some? ==> Grounds(menu, q, why.value) && Rank(why.value) > 3
    ensures why.Some? ==> forall other :: 3 < Rank(other) < Rank(why.value) ==> !Grounds(menu, q, other)
    ensures why.None? <==>
      && (q.destination.Delivery? ==>
            total >= 25 * EURO && q.destination.address.Some? && Reached(q.destination.address.value))
      && (q.coupon == NoCoupon || (q.coupon.Valid? && !q.coupon.active))
  {
    if q.destination.Delivery? {
      if total < 25 * EURO {
        return Some(BelowDeliveryMinimum);
      }
      if q.destination.address.None? {
        return Some(NoAddress);
      }
      if q.destination.address.value.distance >= 9000.0 {
        return Some(TooFar);
      }
      if q.destination.address.value.excluded {
        return Some(ExcludedArea);
      }
    }
    if q.coupon == NotValid {
      return Some(InvalidCoupon);
    }
    if q.coupon.Valid? && q.coupon.active {
      return Some(AnotherCouponOrder);
    }
    why := None;
  }

  /** The line is that of the item: for every piece its product's price with the extras asked for. */
  predicate IsLineOf(menu: Menu, item: Basket.Item, line: Item)
    requires item.product in menu.catalog.prices && Basket.Known(menu.catalog, Basket.Wishes(item))
  {
    && line.total == item.quantity * (menu.catalog.prices[item.product] + Basket.Extras(menu.catalog, Basket.Wishes(item)))
    && line.discountable == (item.product in menu.discountable)
  }

  predicate LinesOfItems(menu: Menu, q: Request, o: Order)
    requires Orderly(menu, q)
  {
    && |o.items| == |q.items| && Total(o.items) == Basket.Worth(menu.catalog, q.items)
    && forall i :: 0 <= i < |q.items| ==> IsLineOf(menu, q.items[i], o.items[i])
  }

  /** A delivery pays a euro for every kilometre from the third one on, a pickup nothing; an online
      order pays 30 cents; the rest is the discounts. */
  ghost predicate ChargedFor(q: Request, o: Order) {
    && (q.destination.Pickup? ==> o.fee == 0)
    && (q.destination.Delivery? ==>
          && q.destination.address.Some?
          && var d := q.destination.address.value.distance;
             o.fee == 1_000_000 * if d < 3000.0 then 0 else (d / 1000.0).Floor - 2)
    && o.transactionFee == (if q.online then 30 else 0)
    && Priced(o.items) && o.fee >= 0
    && o.discounts == OrderDiscounts(o.items, o.fee, q.destination.Pickup?,
                                     if q.coupon.Valid? then Some(q.coupon.coupon) else None)
  }

  lemma LineIsAsRequested(menu: Menu, item: Basket.Item)
    requires Basket.Acceptable(menu.catalog, item)
    ensures IsLineOf(menu, item, Item(Basket.Price(menu.catalog, item), item.product in menu.discountable))
  {
    Basket.PriceOfPieces(menu.catalog, item);
  }

  lemma {:induction false} LinesAreAsRequested(menu: Menu, q: Request, o: Order)
    requires ItemsServable(menu, q) && PricedAs(menu, q, o.items)
    ensures Orderly(menu, q) && LinesOfItems(menu, q, o)
  {
    Basket.SubtotalIsWorth(menu.catalog, q.items);
    forall i | 0 <= i < |q.items|
      ensures IsLineOf(menu, q.items[i], o.items[i])
    {
      LineIsAsRequested(menu, q.items[i]);
    }
  }

  lemma ChargesAreAsRequested(q: Request, items: seq<Item>)
    requires Priced(items)
    requires q.destination.Delivery? ==> q.destination.address.Some? && q.destination.address.value.distance < 9000.0
    ensures Fee(q) >= 0
    ensures ChargedFor(q, NewOrder(items, Fee(q), q.destination.Pickup?, Taken(q), q.online))
  {
    if q.destination.Delivery? {
      FeeByTheKilometre(q.destination.address.value.distance);
    }
  }

  /** The checkout accepts exactly the requests there are no grounds to refuse, and refuses others
      on the first grounds there are. An accepted order's lines are the items at their prices, its fee,
      discounts and surcharge are those of its destination, coupon and payment, the discounts are
      fair, the amount charged is what saving stores, and the lines of an online payment are those
      of the order and add up to it. */
  method PlaceOrder(menu: Menu, q: Request) returns (r: Result)
    requires q.coupon.Valid? ==> q.coupon.coupon.value >= 0
    ensures r.Accepted? <==> forall why :: !Grounds(menu, q, why)
    ensures r.Refused? ==> FirstGrounds(menu, q, r.why)
    ensures r.Accepted? ==>
      && Orderly(menu, q) && LinesOfItems(menu, q, r.receipt.order)
      && ChargedFor(q, r.receipt.order) && r.receipt.order.Sound()
      && r.receipt.charged == StoredTotal(r.receipt.order)
      && (if q.online then LinesFor(r.receipt.order, r.receipt.charged, r.receipt.lines) else r.receipt.lines == [])
  {
    ServableMeansNoGrounds(menu, q);
    var items, why := PriceRequest(menu, q);
    if why.Some? {
      return Refused(why.value);
    }
    Basket.SubtotalIsWorth(menu.catalog, q.items);
    why := CheckTerms(menu, q, Total(items));
    if why.Some? {
      forall other | Rank(other) <= 3
        ensures !Grounds(menu, q, other)
      {
        ItemsAreNoGrounds(menu, q, other);
      }
      return Refused(why.value);
    }
    ChargesAreAsRequested(q, items);
    var receipt := Settle(items, Fee(q), q.destination.Pickup?, Taken(q), q.online);
    LinesAreAsRequested(menu, q, receipt.order);
    r := Accepted(receipt);
  }
}
