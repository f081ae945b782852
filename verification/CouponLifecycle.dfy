/** Coupon uses over the life of orders: reserved before the order is saved, given back when
    saving or payment creation fails, and given back when an order becomes cancelled
    (internal/api/graphql/resolver/order.go:433-513, internal/modules/order/application/service.go:69-136).

    Requests run concurrently; a step is one call to the database or to the payment
    provider, which may fail. One coupon is followed; an order either holds it or not. That a
    redemption and a give-back may be one step each is shown by CouponStatements. */
module CouponLifecycle {
  import opened Prelude
  import opened Orders
  import opened CouponCounters

  type OrderId = int
  type RequestId = int

  /** Where a request stands between two calls. */
  datatype Request =
    | Reserved(u: User)
    | Paying(u: User, id: OrderId)
    | GivingBack(u: User)
    | Updating(id: OrderId, seen: Order, to: OrderStatus)
  {
    /** The request carries a use that belongs to no order any more, or not yet. */
    predicate Owes(v: User) {
      (Reserved? || GivingBack?) && u == v
    }
  }

  /** issued: the order ids given out so far. leaked: uses whose give-back failed or that
      the test-order sweep dropped, by user. */
  datatype Shop = Shop(rows: Rows, caps: Caps, orders: map<OrderId, Order>, requests: map<RequestId, Request>,
                       issued: set<OrderId>, leaked: map<User, int>)
  {
    function Leak(u: User): Shop {
      this.(leaked := leaked[u := Count(leaked, u) + 1])
    }
  }

  datatype Step =
    | Reserve(r: RequestId, u: User, open: bool)
    | SaveOrder(r: RequestId, id: OrderId, online: bool, test: bool, ok: bool)
    | SavePlainOrder(id: OrderId, u: User, test: bool)
    | PaymentCreated(r: RequestId)
    | PaymentFailed(r: RequestId, deleted: bool)
    | GiveBack(r: RequestId, ok: bool)
    | ReadOrder(r: RequestId, id: OrderId, to: OrderStatus)
    | WriteOrder(r: RequestId, ok: bool)
    | SweepTestOrder(id: OrderId)

  /** A sweep is for test orders that are still alive. */
  predicate Sweepable(w: Shop, id: OrderId) {
    id in w.orders && w.orders[id].test && w.orders[id].status != Cancelled && w.orders[id].status != OrderStatus.Failed
  }

  predicate Enabled(w: Shop, s: Step) {
    match s
    case Reserve(r, u, open) => r !in w.requests && Redeem(w.rows, w.caps, u, open).1
    case SaveOrder(r, id, _, _, ok) => r in w.requests && w.requests[r].Reserved? && (ok ==> id !in w.issued)
    case SavePlainOrder(id, _, _) => id !in w.issued
    case PaymentCreated(r) => r in w.requests && w.requests[r].Paying?
    case PaymentFailed(r, _) => r in w.requests && w.requests[r].Paying?
    case GiveBack(r, _) => r in w.requests && w.requests[r].GivingBack?
    case ReadOrder(r, id, _) => r !in w.requests && id in w.orders
    case WriteOrder(r, _) => r in w.requests && w.requests[r].Updating?
    case SweepTestOrder(id) => Sweepable(w, id)
  }

  function Next(w: Shop, s: Step): Shop
    requires Enabled(w, s)
  {
    match s
    case Reserve(r, u, open) =>
      w.(rows := Redeem(w.rows, w.caps, u, open).0, requests := w.requests[r := Reserved(u)])
    case SaveOrder(r, id, online, test, ok) =>
      var u := w.requests[r].u;
      if !ok then w.(requests := w.requests[r := GivingBack(u)])
      else w.(orders := w.orders[id := Order(u, true, Pending, test)], issued := w.issued + {id},
              requests := if online then w.requests[r := Paying(u, id)] else w.requests - {r})
    case SavePlainOrder(id, u, test) =>
      w.(orders := w.orders[id := Order(u, false, Pending, test)], issued := w.issued + {id})
    case PaymentCreated(r) => w.(requests := w.requests - {r})
    case PaymentFailed(r, deleted) =>
      w.(orders := if deleted then w.orders - {w.requests[r].id} else w.orders,
         requests := w.requests[r := GivingBack(w.requests[r].u)])
    case GiveBack(r, ok) =>
      var u := w.requests[r].u;
      var w' := w.(requests := w.requests - {r});
      if ok then w'.(rows := Decrement(w.rows, u)) else w'.Leak(u)
    case ReadOrder(r, id, to) => w.(requests := w.requests[r := Updating(id, w.orders[id], to)])
    case WriteOrder(r, ok) =>
      var q := w.requests[r];
      if !ok then w.(requests := w.requests - {r})
      else w.(orders := if q.id in w.orders then w.orders[q.id := w.orders[q.id].(status := q.to)] else w.orders,
              requests := if q.to == Cancelled && q.seen.status != Cancelled && q.seen.coupon
                          then w.requests[r := GivingBack(q.seen.user)] else w.requests - {r})
    case SweepTestOrder(id) =>
      var o := w.orders[id];
      var w' := w.(orders := w.orders[id := o.(status := Cancelled)]);
      if o.coupon then w'.Leak(o.user) else w'
  }

  // ---------------------------------------------------------------------------
  // Conservation
  // ---------------------------------------------------------------------------

  function Holding(orders: map<OrderId, Order>, u: User): set<OrderId> {
    set id | id in orders && orders[id].Holds(u)
  }

  function Owing(requests: map<RequestId, Request>, u: User): set<RequestId> {
    set r | r in requests && requests[r].Owes(u)
  }

  /** Every use counted for a user is held by one of the user's orders that is not
      cancelled, is carried by a request in flight, or has leaked. */
  ghost predicate Conserved(w: Shop) {
    forall u :: Gap(w, u) == 0
  }

  function Gap(w: Shop, u: User): int {
    Count(w.rows.users, u) - |Holding(w.orders, u)| - |Owing(w.requests, u)| - Count(w.leaked, u)
  }

  /** References are to issued ids. */
  ghost predicate Issued(w: Shop) {
    && w.orders.Keys <= w.issued
    && (forall r :: r in w.requests && (w.requests[r].Paying? || w.requests[r].Updating?) ==>
          w.requests[r].id in w.issued)
    && (forall u :: u in w.leaked ==> w.leaked[u] >= 0)
  }

  /** The coupon and user that a request remembers of an order are the order's, as long as
      the order exists. */
  ghost predicate Faithful(w: Shop) {
    && (forall r :: r in w.requests && w.requests[r].Paying? && w.requests[r].id in w.orders ==>
          w.orders[w.requests[r].id].coupon && w.orders[w.requests[r].id].user == w.requests[r].u)
    && (forall r :: r in w.requests && w.requests[r].Updating? && w.requests[r].id in w.orders ==>
          w.orders[w.requests[r].id].coupon == w.requests[r].seen.coupon &&
          w.orders[w.requests[r].id].user == w.requests[r].seen.user)
  }

  ghost predicate WellFormed(w: Shop) {
    Issued(w) && Faithful(w)
  }

  ghost predicate Inv(w: Shop) {
    && WellFormed(w)
    && Within(w.rows, w.caps)
    && Balanced(w.rows)
    && Conserved(w)
  }

  /** Updates of one order do not run into each other over its cancellation: what an update
      of a coupon order read about it is still so when it writes, and a cancelled order is
      not reopened. A failed payment finds its order not cancelled yet and deletes it. */
  predicate Disciplined(w: Shop, s: Step)
    requires Enabled(w, s)
  {
    match s
    case PaymentFailed(r, deleted) =>
      var id := w.requests[r].id;
      deleted && id in w.orders && w.orders[id].status != Cancelled
    case WriteOrder(r, ok) =>
      var q := w.requests[r];
      ok && q.seen.coupon ==>
        if q.id !in w.orders then q.to != Cancelled || q.seen.status == Cancelled
        else if q.to == Cancelled then q.seen.status == Cancelled <==> w.orders[q.id].status == Cancelled
        else w.orders[q.id].status != Cancelled
    case _ => true
  }

  /** Taking one order out changes the number of a user's holding orders at that order only. */
  lemma HoldingSplit(orders: map<OrderId, Order>, id: OrderId, u: User)
    ensures |Holding(orders, u)| == |Holding(orders - {id}, u)| + if id in orders && orders[id].Holds(u) then 1 else 0
  {
    var all, rest := Holding(orders, u), Holding(orders - {id}, u);
    if id in all {
      assert all == rest + {id};
    } else {
      assert all == rest;
    }
  }

  lemma OwingSplit(requests: map<RequestId, Request>, r: RequestId, u: User)
    ensures |Owing(requests, u)| == |Owing(requests - {r}, u)| + if r in requests && requests[r].Owes(u) then 1 else 0
  {
    var all, rest := Owing(requests, u), Owing(requests - {r}, u);
    if r in all {
      assert all == rest + {r};
    } else {
      assert all == rest;
    }
  }

  /** The order and the request a step touches, if any. */
  function TouchedOrder(w: Shop, s: Step): OrderId
    requires Enabled(w, s)
  {
    match s
    case SaveOrder(_, id, _, _, _) => id
    case SavePlainOrder(id, _, _) => id
    case SweepTestOrder(id) => id
    case PaymentFailed(r, _) => w.requests[r].id
    case WriteOrder(r, _) => w.requests[r].id
    case _ => 0
  }

  function TouchedRequest(s: Step): RequestId {
    if s.SavePlainOrder? || s.SweepTestOrder? then 0 else s.r
  }

  lemma NextIssued(w: Shop, s: Step)
    requires Issued(w) && Enabled(w, s)
    ensures Issued(Next(w, s))
  {
  }

  lemma NextFaithful(w: Shop, s: Step)
    requires WellFormed(w) && Enabled(w, s)
    ensures Faithful(Next(w, s))
  {
  }

  /** The books of one user after a step, as changes at the touched order and request. */
  lemma NextBooks(w: Shop, s: Step, u: User)
    requires WellFormed(w) && Enabled(w, s)
    ensures var w' := Next(w, s); var id := TouchedOrder(w, s); var r := TouchedRequest(s);
      && |Holding(w'.orders, u)| - |Holding(w.orders, u)| ==
         (if id in w'.orders && w'.orders[id].Holds(u) then 1 else 0) -
         (if id in w.orders && w.orders[id].Holds(u) then 1 else 0)
      && |Owing(w'.requests, u)| - |Owing(w.requests, u)| ==
         (if r in w'.requests && w'.requests[r].Owes(u) then 1 else 0) -
         (if r in w.requests && w.requests[r].Owes(u) then 1 else 0)
  {
    var w' := Next(w, s);
    var id, r := TouchedOrder(w, s), TouchedRequest(s);
    assert w.orders - {id} == w'.orders - {id};
    assert w.requests - {r} == w'.requests - {r};
    HoldingSplit(w.orders, id, u);
    HoldingSplit(w'.orders, id, u);
    OwingSplit(w.requests, r, u);
    OwingSplit(w'.requests, r, u);
  }

  /** A user for whom a request owes a use has one counted. */
  lemma OwedIsCounted(w: Shop, r: RequestId)
    requires Inv(w) && r in w.requests && w.requests[r].GivingBack?
    ensures Count(w.rows.users, w.requests[r].u) > 0
  {
    var u := w.requests[r].u;
    assert Gap(w, u) == 0;
    assert r in Owing(w.requests, u);
    assert |Owing(w.requests, u)| > 0;
  }

  lemma NextCounters(w: Shop, s: Step)
    requires Inv(w) && Enabled(w, s)
    ensures Within(Next(w, s).rows, w.caps) && Balanced(Next(w, s).rows)
  {
    match s
    case Reserve(r, u, open) => RedeemKeeps(w.rows, w.caps, u, open);
    case GiveBack(r, ok) =>
      OwedIsCounted(w, r);
      DecrementKeeps(w.rows, w.caps, w.requests[r].u);
    case _ =>
  }

  lemma GapAfterPaymentFailure(w: Shop, s: Step, u: User)
    requires Inv(w) && Enabled(w, s) && s.PaymentFailed?
    ensures Gap(Next(w, s), u) == if u == w.requests[s.r].u && !Disciplined(w, s) then -1 else 0
  {
    NextBooks(w, s, u);
    assert Gap(w, u) == 0;
  }

  lemma GapAfterWrite(w: Shop, s: Step, u: User)
    requires Inv(w) && Enabled(w, s) && s.WriteOrder?
    ensures u != w.requests[s.r].seen.user ==> Gap(Next(w, s), u) == 0
    ensures u == w.requests[s.r].seen.user ==> (Gap(Next(w, s), u) == 0 <==> Disciplined(w, s))
  {
    NextBooks(w, s, u);
    assert Gap(w, u) == 0;
  }

  lemma GapAfterGiveBack(w: Shop, s: Step, u: User)
    requires Inv(w) && Enabled(w, s) && s.GiveBack?
    ensures Gap(Next(w, s), u) == 0
  {
    NextBooks(w, s, u);
    assert Gap(w, u) == 0;
    OwedIsCounted(w, s.r);
  }

  lemma GapAfterReserving(w: Shop, s: Step, u: User)
    requires Inv(w) && Enabled(w, s) && (s.Reserve? || s.SaveOrder? || s.SavePlainOrder?)
    ensures Gap(Next(w, s), u) == 0
  {
    NextBooks(w, s, u);
    assert Gap(w, u) == 0;
  }

  lemma GapAfterOther(w: Shop, s: Step, u: User)
    requires Inv(w) && Enabled(w, s) && (s.PaymentCreated? || s.ReadOrder? || s.SweepTestOrder?)
    ensures Gap(Next(w, s), u) == 0
  {
    NextBooks(w, s, u);
    assert Gap(w, u) == 0;
  }

  /** A step keeps the books exactly when it is disciplined. */
  lemma ConservedIffDisciplined(w: Shop, s: Step)
    requires Inv(w) && Enabled(w, s)
    ensures Conserved(Next(w, s)) <==> Disciplined(w, s)
  {
    forall u
      ensures Disciplined(w, s) ==> Gap(Next(w, s), u) == 0
    {
      if s.PaymentFailed? {
        GapAfterPaymentFailure(w, s, u);
      } else if s.WriteOrder? {
        GapAfterWrite(w, s, u);
      } else if s.GiveBack? {
        GapAfterGiveBack(w, s, u);
      } else if s.Reserve? || s.SaveOrder? || s.SavePlainOrder? {
        GapAfterReserving(w, s, u);
      } else {
        GapAfterOther(w, s, u);
      }
    }
    if s.PaymentFailed? {
      GapAfterPaymentFailure(w, s, w.requests[s.r].u);
    } else if s.WriteOrder? {
      GapAfterWrite(w, s, w.requests[s.r].seen.user);
    }
  }

  lemma NextInv(w: Shop, s: Step)
    requires Inv(w) && Enabled(w, s) && Disciplined(w, s)
    ensures Inv(Next(w, s))
  {
    NextIssued(w, s);
    NextFaithful(w, s);
    NextCounters(w, s);
    ConservedIffDisciplined(w, s);
  }

  /** An order keeps its user, coupon and kind. It goes when its payment could not be created and
      it is deleted; its status is changed by an update that is written, to what that asks for,
      and by the sweep, which cancels test orders and no others. */
  lemma WhatChangesAnOrder(w: Shop, s: Step, id: OrderId)
    requires Issued(w) && Enabled(w, s) && id in w.orders
    ensures id !in Next(w, s).orders <==> s.PaymentFailed? && s.deleted && w.requests[s.r].id == id
    ensures id in Next(w, s).orders ==> var o, o' := w.orders[id], Next(w, s).orders[id];
      && o'.user == o.user && o'.coupon == o.coupon && o'.test == o.test
      && (if s.WriteOrder? && s.ok && w.requests[s.r].id == id then o'.status == w.requests[s.r].to
          else if s.SweepTestOrder? && s.id == id then o.test && o'.status == Cancelled
          else o'.status == o.status)
  {
  }

  /** An order that comes to be is a new one: pending, as it was asked for, and with the coupon
      exactly if its request has reserved a use for its user. */
  lemma WhereOrdersComeFrom(w: Shop, s: Step, id: OrderId)
    requires Issued(w) && Enabled(w, s) && id !in w.orders && id in Next(w, s).orders
    ensures id !in w.issued && id in Next(w, s).issued
    ensures (s.SaveOrder? && s.ok && Next(w, s).orders[id] == Order(w.requests[s.r].u, true, Pending, s.test)) ||
            (s.SavePlainOrder? && Next(w, s).orders[id] == Order(s.u, false, Pending, s.test))
  {
  }

  // ---------------------------------------------------------------------------
  // Whole runs
  // ---------------------------------------------------------------------------

  predicate Run(w: Shop, steps: seq<Step>)
    decreases |steps|
  {
    steps == [] || (Enabled(w, steps[0]) && Run(Next(w, steps[0]), steps[1..]))
  }

  function After(w: Shop, steps: seq<Step>): Shop
    requires Run(w, steps)
    decreases |steps|
  {
    if steps == [] then w else After(Next(w, steps[0]), steps[1..])
  }

  /** A run on which every step is disciplined. */
  predicate DisciplinedRun(w: Shop, steps: seq<Step>)
    decreases |steps|
  {
    steps == [] ||
    (Enabled(w, steps[0]) && Disciplined(w, steps[0]) && DisciplinedRun(Next(w, steps[0]), steps[1..]))
  }

  function Start(caps: Caps): Shop {
    Shop(Rows(0, map[]), caps, map[], map[], {}, map[])
  }

  lemma {:induction false} RunKeepsInv(w: Shop, steps: seq<Step>)
    requires Inv(w) && DisciplinedRun(w, steps)
    ensures Run(w, steps) && Inv(After(w, steps))
    decreases |steps|
  {
    if steps != [] {
      NextInv(w, steps[0]);
      RunKeepsInv(Next(w, steps[0]), steps[1..]);
    }
  }

  predicate CapsAllowNone(caps: Caps) {
    caps.maxUses.Some? ==> caps.maxUses.value >= 0
  }

  /** Over every disciplined run a user's count covers the user's orders that hold the
      coupon and the reservations in flight, exactly when nothing has leaked; and the
      coupon's own count is the sum over its users. */
  lemma CountsCoverOrders(caps: Caps, steps: seq<Step>, u: User)
    requires CapsAllowNone(caps) && DisciplinedRun(Start(caps), steps)
    ensures Run(Start(caps), steps)
    ensures var w := After(Start(caps), steps); var held := |Holding(w.orders, u)| + |Owing(w.requests, u)|;
      && Count(w.rows.users, u) >= held
      && (Count(w.rows.users, u) == held <==> Count(w.leaked, u) == 0)
      && w.rows.used == Sum(w.rows.users)
  {
    var w0 := Start(caps);
    forall v
      ensures Gap(w0, v) == 0
    {
    }
    RunKeepsInv(w0, steps);
    assert Gap(After(w0, steps), u) == 0;
  }

  /** The two events that strand a use. */
  predicate Strands(w: Shop, s: Step)
    requires Enabled(w, s)
  {
    (s.GiveBack? && !s.ok) || (s.SweepTestOrder? && w.orders[s.id].coupon)
  }

  predicate NothingStranded(w: Shop, steps: seq<Step>)
    requires Run(w, steps)
    decreases |steps|
  {
    steps == [] || (!Strands(w, steps[0]) && NothingStranded(Next(w, steps[0]), steps[1..]))
  }

  lemma {:induction false} LeakedIsKept(w: Shop, steps: seq<Step>)
    requires Run(w, steps) && NothingStranded(w, steps)
    ensures After(w, steps).leaked == w.leaked
    decreases |steps|
  {
    if steps != [] {
      LeakedIsKept(Next(w, steps[0]), steps[1..]);
    }
  }

  /** When every give-back succeeds and no coupon order is swept, a user's count is the
      number of the user's holding orders and reservations in flight. */
  lemma CountsAreExact(caps: Caps, steps: seq<Step>, u: User)
    requires CapsAllowNone(caps) && DisciplinedRun(Start(caps), steps) && Run(Start(caps), steps)
    requires NothingStranded(Start(caps), steps)
    ensures var w := After(Start(caps), steps);
      Count(w.rows.users, u) == |Holding(w.orders, u)| + |Owing(w.requests, u)|
  {
    CountsCoverOrders(caps, steps, u);
    LeakedIsKept(Start(caps), steps);
  }

  // ---------------------------------------------------------------------------
  // Undisciplined runs that nothing prevents
  // ---------------------------------------------------------------------------

  lemma {:induction false} Extend(start: Shop, steps: seq<Step>, w: Shop, s: Step) returns (longer: seq<Step>, w': Shop)
    requires Run(start, steps) && After(start, steps) == w && Enabled(w, s)
    ensures longer == steps + [s] && w' == Next(w, s)
    ensures Run(start, longer) && After(start, longer) == w'
    decreases |steps|
  {
    longer, w' := steps + [s], Next(w, s);
    if steps == [] {
      assert longer[1..] == [];
    } else {
      var rest, last := Extend(Next(start, steps[0]), steps[1..], w, s);
      assert longer[1..] == rest;
    }
  }

  const EMPTY: Shop := Start(Caps(None, None))

  lemma OneDelivered() returns (steps: seq<Step>, w: Shop)
    ensures Run(EMPTY, steps) && After(EMPTY, steps) == w
    ensures w == EMPTY.(rows := Rows(1, map["ann" := 1]), issued := {1},
                        orders := map[1 := Order("ann", true, Delivered, false)])
  {
    steps, w := Extend(EMPTY, [], EMPTY, Reserve(0, "ann", true));
    steps, w := Extend(EMPTY, steps, w, SaveOrder(0, 1, false, false, true));
    steps, w := Extend(EMPTY, steps, w, ReadOrder(0, 1, Delivered));
    steps, w := Extend(EMPTY, steps, w, WriteOrder(0, true));
    assert w.requests == map[];
  }

  /** Ann has two coupon orders, the first one delivered. */
  lemma TwoOrders() returns (steps: seq<Step>, w: Shop)
    ensures Run(EMPTY, steps) && After(EMPTY, steps) == w
    ensures w == EMPTY.(rows := Rows(2, map["ann" := 2]), issued := {1, 2},
                        orders := map[1 := Order("ann", true, Delivered, false), 2 := Order("ann", true, Pending, false)])
  {
    steps, w := OneDelivered();
    steps, w := Extend(EMPTY, steps, w, Reserve(0, "ann", true));
    steps, w := Extend(EMPTY, steps, w, SaveOrder(0, 2, false, false, true));
    assert w.requests == map[];
  }

  lemma TwoCancelsWritten() returns (steps: seq<Step>, w: Shop)
    ensures Run(EMPTY, steps) && After(EMPTY, steps) == w
    ensures w == EMPTY.(rows := Rows(2, map["ann" := 2]), issued := {1, 2},
                        orders := map[1 := Order("ann", true, Delivered, false), 2 := Order("ann", true, Cancelled, false)],
                        requests := map[0 := GivingBack("ann"), 1 := GivingBack("ann")])
  {
    steps, w := TwoOrders();
    steps, w := Extend(EMPTY, steps, w, ReadOrder(0, 2, Cancelled));
    steps, w := Extend(EMPTY, steps, w, ReadOrder(1, 2, Cancelled));
    steps, w := Extend(EMPTY, steps, w, WriteOrder(0, true));
    steps, w := Extend(EMPTY, steps, w, WriteOrder(1, true));
  }

  /** Two cancellations of one order that both read it before either writes give its use
      back twice: the delivered order keeps the coupon but nothing is counted for it. */
  lemma OverlappingCancelsUndercount() returns (steps: seq<Step>, w: Shop)
    ensures Run(EMPTY, steps) && After(EMPTY, steps) == w
    ensures Count(w.rows.users, "ann") == 0 && 1 in Holding(w.orders, "ann")
  {
    steps, w := TwoCancelsWritten();
    steps, w := Extend(EMPTY, steps, w, GiveBack(0, true));
    steps, w := Extend(EMPTY, steps, w, GiveBack(1, true));
  }

  lemma OnePaying() returns (steps: seq<Step>, w: Shop)
    ensures Run(EMPTY, steps) && After(EMPTY, steps) == w
    ensures w == EMPTY.(rows := Rows(1, map["ann" := 1]), issued := {1},
                        orders := map[1 := Order("ann", true, Pending, false)], requests := map[0 := Paying("ann", 1)])
  {
    steps, w := Extend(EMPTY, [], EMPTY, Reserve(0, "ann", true));
    steps, w := Extend(EMPTY, steps, w, SaveOrder(0, 1, true, false, true));
  }

  lemma CancelledWhilePaying() returns (steps: seq<Step>, w: Shop)
    ensures Run(EMPTY, steps) && After(EMPTY, steps) == w
    ensures w == EMPTY.(rows := Rows(1, map["ann" := 1]), issued := {1},
                        orders := map[1 := Order("ann", true, Cancelled, false)],
                        requests := map[0 := Paying("ann", 1), 1 := GivingBack("ann")])
  {
    steps, w := OnePaying();
    steps, w := Extend(EMPTY, steps, w, ReadOrder(1, 1, Cancelled));
    steps, w := Extend(EMPTY, steps, w, WriteOrder(1, true));
  }

  /** An order cancelled while its payment is being created, and whose payment creation
      then fails, owes its single use twice. */
  lemma CancelDuringPaymentOwesTwice() returns (steps: seq<Step>, w: Shop)
    ensures Run(EMPTY, steps) && After(EMPTY, steps) == w
    ensures Count(w.rows.users, "ann") == 1 && Owing(w.requests, "ann") == {0, 1} && w.orders == map[]
  {
    steps, w := CancelledWhilePaying();
    steps, w := Extend(EMPTY, steps, w, PaymentFailed(0, true));
  }

  // ---------------------------------------------------------------------------
  // The service: one call after another
  // ---------------------------------------------------------------------------

  /** How the calls of a checkout turn out. */
  datatype Checkout = Checkout(saved: bool, paid: bool, deleted: bool, returned: bool)

  function CheckoutSteps(u: User, id: OrderId, open: bool, online: bool, test: bool, c: Checkout): seq<Step> {
    [Reserve(0, u, open), SaveOrder(0, id, online, test, c.saved)] +
    if !c.saved then [GiveBack(0, c.returned)]
    else if !online then []
    else if c.paid then [PaymentCreated(0)]
    else [PaymentFailed(0, c.deleted), GiveBack(0, c.returned)]
  }

  function UpdateSteps(o: Order, id: OrderId, to: OrderStatus, written: bool, returned: bool): seq<Step> {
    [ReadOrder(0, id, to), WriteOrder(0, written)] +
    if written && to == Cancelled && o.status != Cancelled && o.coupon then [GiveBack(0, returned)] else []
  }

  function SweepSteps(ids: seq<OrderId>): (steps: seq<Step>)
    ensures |steps| == |ids| && forall i :: 0 <= i < |ids| ==> steps[i] == SweepTestOrder(ids[i])
  {
    seq(|ids|, i requires 0 <= i < |ids| => SweepTestOrder(ids[i]))
  }

  lemma {:induction false} SweptOrders(w: Shop, ids: seq<OrderId>)
    requires Run(w, SweepSteps(ids))
    ensures After(w, SweepSteps(ids)).orders.Keys == w.orders.Keys
    ensures forall id :: id in w.orders ==>
      After(w, SweepSteps(ids)).orders[id] == if id in ids then w.orders[id].(status := Cancelled) else w.orders[id]
    decreases |ids|
  {
    if ids != [] {
      assert SweepSteps(ids)[1..] == SweepSteps(ids[1..]);
      SweptOrders(Next(w, SweepTestOrder(ids[0])), ids[1..]);
    }
  }

  /** Of the orders seen so far, exactly those that may be have been swept. */
  ghost predicate SweptSoFar(w: Shop, v: Shop, seen: set<OrderId>, ids: seq<OrderId>) {
    && Run(w, SweepSteps(ids)) && v == After(w, SweepSteps(ids))
    && (forall id :: id in ids <==> id in seen && Sweepable(w, id))
  }

  lemma SweptOneMore(w: Shop, v: Shop, seen: set<OrderId>, ids: seq<OrderId>, id: OrderId)
    requires SweptSoFar(w, v, seen, ids) && id !in seen
    ensures Sweepable(v, id) <==> Sweepable(w, id)
    ensures Sweepable(v, id) ==> SweptSoFar(w, Next(v, SweepTestOrder(id)), seen + {id}, ids + [id])
    ensures !Sweepable(v, id) ==> SweptSoFar(w, v, seen + {id}, ids)
  {
    SweptOrders(w, ids);
    if Sweepable(v, id) {
      var longer, v' := Extend(w, SweepSteps(ids), v, SweepTestOrder(id));
      assert SweepSteps(ids + [id]) == longer;
    }
  }

  class OrderService {
    const coupons: Repository
    var orders: map<OrderId, Order>
    ghost var issued: set<OrderId>
    ghost var leaked: map<User, int>

    constructor (coupons: Repository)
      requires coupons.Stored() == Rows(0, map[])
      ensures this.coupons == coupons && World() == Start(coupons.caps)
    {
      this.coupons := coupons;
      orders, issued, leaked := map[], {}, map[];
    }

    ghost function World(): Shop
      reads this, coupons
    {
      Shop(coupons.Stored(), coupons.caps, orders, map[], issued, leaked)
    }

    /** A give-back whose failure is only logged. */
    method DecrementUsage(u: User, returned: bool)
      modifies this`leaked, coupons
      ensures coupons.Stored() == if returned then Decrement(old(coupons.Stored()), u) else old(coupons.Stored())
      ensures leaked == if returned then old(leaked) else old(leaked)[u := Count(old(leaked), u) + 1]
    {
      var ok := coupons.DecrementUsageAtomic(u, if returned then NoFault else AtCommit);
      if !ok {
        leaked := leaked[u := Count(leaked, u) + 1];
      }
    }

    /** What a failed payment leaves: the order is deleted, if that succeeds, and the use given back. */
    method UndoPayment(u: User, id: OrderId, deleted: bool, returned: bool)
      modifies this`orders, this`leaked, coupons
      ensures orders == if deleted then old(orders) - {id} else old(orders)
      ensures coupons.Stored() == if returned then Decrement(old(coupons.Stored()), u) else old(coupons.Stored())
      ensures leaked == if returned then old(leaked) else old(leaked)[u := Count(old(leaked), u) + 1]
    {
      if deleted {
        orders := orders - {id};
      }
      DecrementUsage(u, returned);
    }

    /** With a use reserved: save the order and create its payment. If either fails, only an order
        that could not be deleted stays, and the use is given back if that succeeds. */
    method SaveAndPay(u: User, id: OrderId, online: bool, test: bool, c: Checkout) returns (ok: bool)
      requires id !in orders
      modifies this, coupons
      ensures ok == (c.saved && (online ==> c.paid))
      ensures orders == if ok || (c.saved && !c.deleted) then old(orders)[id := Order(u, true, Pending, test)] else old(orders)
      ensures issued == if c.saved then old(issued) + {id} else old(issued)
      ensures coupons.Stored() == if ok || !c.returned then old(coupons.Stored()) else Decrement(old(coupons.Stored()), u)
      ensures leaked == if ok || c.returned then old(leaked) else old(leaked)[u := Count(old(leaked), u) + 1]
    {
      ok := c.saved;
      if !c.saved {
        DecrementUsage(u, c.returned);
      } else {
        orders := orders[id := Order(u, true, Pending, test)];
        issued := issued + {id};
        if online && !c.paid {
          UndoPayment(u, id, c.deleted, c.returned);
          ok := false;
        }
      }
    }

    /** Checkout with a coupon: reserve, save, create the payment, and undo on failure. The
        reservation is refused or fails as the coupon and the fault say; nothing is left then. */
    method CreateOrder(u: User, id: OrderId, open: bool, fault: Fault, online: bool, test: bool, c: Checkout)
      returns (ok: bool)
      requires id !in issued && orders.Keys <= issued
      modifies this, coupons
      ensures !(Redeem(old(coupons.Stored()), coupons.caps, u, open).1 && fault.NoFault?) ==>
        !ok && World() == old(World())
      ensures Redeem(old(coupons.Stored()), coupons.caps, u, open).1 && fault.NoFault? ==>
        && ok == (c.saved && (online ==> c.paid))
        && Run(old(World()), CheckoutSteps(u, id, open, online, test, c))
        && World() == After(old(World()), CheckoutSteps(u, id, open, online, test, c))
      ensures ok ==> open && fault.NoFault? && orders == old(orders)[id := Order(u, true, Pending, test)]
      ensures !ok && orders != old(orders) ==>
        online && c.saved && !c.paid && !c.deleted && orders == old(orders)[id := Order(u, true, Pending, test)]
    {
      ghost var w := World();
      var reserved := coupons.RedeemAtomic(u, open, fault);
      if reserved.Failed? || !reserved.ok {
        return false;
      }
      ok := SaveAndPay(u, id, online, test, c);
      CheckedOutIs(w, u, id, open, online, test, c, World());
    }

    /** A status change: read the order, write it, and give the use back on the transition
        into CANCELLED. */
    method UpdateOrder(id: OrderId, to: OrderStatus, written: bool, returned: bool) returns (ok: bool)
      modifies this, coupons
      ensures id !in old(orders) ==> !ok && World() == old(World())
      ensures id in old(orders) ==>
        && ok == written
        && Run(old(World()), UpdateSteps(old(orders)[id], id, to, written, returned))
        && World() == After(old(World()), UpdateSteps(old(orders)[id], id, to, written, returned))
      ensures ok ==> orders == old(orders)[id := old(orders)[id].(status := to)]
      ensures !ok ==> orders == old(orders)
      ensures var owed := ok && to == Cancelled && old(orders)[id].status != Cancelled && old(orders)[id].coupon;
        && (!owed || !returned ==> coupons.Stored() == old(coupons.Stored()))
        && (owed && returned ==> coupons.Stored() == Decrement(old(coupons.Stored()), old(orders)[id].user))
        && (!owed || returned ==> leaked == old(leaked))
        && (owed && !returned ==>
              var u := old(orders)[id].user; leaked == old(leaked)[u := Count(old(leaked), u) + 1])
    {
      ghost var w := World();
      if id !in orders {
        return false;
      }
      var o := orders[id];
      if written {
        orders := orders[id := o.(status := to)];
        if to == Cancelled && o.status != Cancelled && o.coupon {
          DecrementUsage(o.user, returned);
        }
      }
      ok := written;
      ReplayUpdate(w, id, to, written, returned, World());
    }

    /** One row of the sweep: only a test order that is not cancelled or failed is cancelled. */
    method SweepOne(id: OrderId) returns (swept: bool)
      modifies this`orders, this`leaked
      ensures swept <==> Sweepable(old(World()), id)
      ensures World() == if swept then Next(old(World()), SweepTestOrder(id)) else old(World())
    {
      swept := id in orders && orders[id].test &&
        orders[id].status != Cancelled && orders[id].status != OrderStatus.Failed;
      if swept {
        var o := orders[id];
        orders := orders[id := o.(status := Cancelled)];
        if o.coupon {
          leaked := leaked[o.user := Count(leaked, o.user) + 1];
        }
      }
    }

    /** The sweep cancels every stale test order that is not cancelled or failed, and no other
        order, and gives nothing back. */
    method CancelStaleTestOrders(stale: set<OrderId>) returns (ids: seq<OrderId>)
      modifies this
      ensures Run(old(World()), SweepSteps(ids)) && World() == After(old(World()), SweepSteps(ids))
      ensures forall id :: id in ids <==>
        id in stale && id in old(orders) && old(orders)[id].test &&
        old(orders)[id].status != Cancelled && old(orders)[id].status != OrderStatus.Failed
      ensures orders.Keys == old(orders).Keys && forall id :: id in orders ==>
        orders[id] == if id in ids then old(orders)[id].(status := Cancelled) else old(orders)[id]
    {
      ghost var w := World();
      ids := [];
      var todo := stale;
      while todo != {}
        invariant todo <= stale && SweptSoFar(w, World(), stale - todo, ids)
        decreases |todo|
      {
        ghost var some := SomeMember(todo);
        assert some in todo;
        var id :| id in todo;
        SweptOneMore(w, World(), stale - todo, ids, id);
        assert stale - (todo - {id}) == stale - todo + {id};
        todo := todo - {id};
        var swept := SweepOne(id);
        if swept {
          ids := ids + [id];
        }
      }
      SweptOrders(w, ids);
    }
  }

  /** Evaluating the steps of a checkout. */
  ghost function Undone(w: Shop, u: User, open: bool, c: Checkout): Shop {
    var reserved := Redeem(w.rows, w.caps, u, open).0;
    if c.returned then w.(rows := Decrement(reserved, u)) else w.(rows := reserved).Leak(u)
  }

  lemma ReplayUnsaved(w: Shop, u: User, id: OrderId, open: bool, online: bool, test: bool, c: Checkout)
    requires w.requests == map[] && Redeem(w.rows, w.caps, u, open).1 && !c.saved
    ensures Run(w, CheckoutSteps(u, id, open, online, test, c))
    ensures After(w, CheckoutSteps(u, id, open, online, test, c)) == Undone(w, u, open, c)
  {
    var steps, v := Extend(w, [], w, Reserve(0, u, open));
    steps, v := Extend(w, steps, v, SaveOrder(0, id, online, test, false));
    steps, v := Extend(w, steps, v, GiveBack(0, c.returned));
    assert steps == CheckoutSteps(u, id, open, online, test, c);
    assert v.requests == map[];
  }

  ghost function Placed(w: Shop, u: User, id: OrderId, open: bool, test: bool): Shop {
    w.(rows := Redeem(w.rows, w.caps, u, open).0, orders := w.orders[id := Order(u, true, Pending, test)],
       issued := w.issued + {id})
  }

  lemma ReplaySaved(w: Shop, u: User, id: OrderId, open: bool, online: bool, test: bool) returns (steps: seq<Step>, v: Shop)
    requires w.requests == map[] && id !in w.issued && Redeem(w.rows, w.caps, u, open).1
    ensures steps == [Reserve(0, u, open), SaveOrder(0, id, online, test, true)]
    ensures Run(w, steps) && After(w, steps) == v
    ensures v == Placed(w, u, id, open, test).(requests := if online then map[0 := Paying(u, id)] else map[])
  {
    steps, v := Extend(w, [], w, Reserve(0, u, open));
    steps, v := Extend(w, steps, v, SaveOrder(0, id, online, test, true));
  }

  lemma ReplayPlaced(w: Shop, u: User, id: OrderId, open: bool, online: bool, test: bool, c: Checkout)
    requires w.requests == map[] && id !in w.issued && Redeem(w.rows, w.caps, u, open).1
    requires c.saved && (online ==> c.paid)
    ensures Run(w, CheckoutSteps(u, id, open, online, test, c))
    ensures After(w, CheckoutSteps(u, id, open, online, test, c)) == Placed(w, u, id, open, test)
  {
    var steps, v := ReplaySaved(w, u, id, open, online, test);
    if online {
      steps, v := Extend(w, steps, v, PaymentCreated(0));
    }
    assert steps == CheckoutSteps(u, id, open, online, test, c);
  }

  /** The orders a failed payment leaves. */
  ghost function Deleted(w: Shop, u: User, id: OrderId, test: bool, deleted: bool): map<OrderId, Order> {
    var placed := w.orders[id := Order(u, true, Pending, test)];
    if deleted then placed - {id} else placed
  }

  lemma ReplayPaymentFailed(w: Shop, u: User, id: OrderId, open: bool, test: bool, deleted: bool)
    returns (steps: seq<Step>, v: Shop)
    requires w.requests == map[] && id !in w.issued && Redeem(w.rows, w.caps, u, open).1
    ensures steps == [Reserve(0, u, open), SaveOrder(0, id, true, test, true), PaymentFailed(0, deleted)]
    ensures Run(w, steps) && After(w, steps) == v
    ensures v == w.(rows := Redeem(w.rows, w.caps, u, open).0, orders := Deleted(w, u, id, test, deleted),
                    issued := w.issued + {id}, requests := map[0 := GivingBack(u)])
  {
    steps, v := ReplaySaved(w, u, id, open, true, test);
    steps, v := Extend(w, steps, v, PaymentFailed(0, deleted));
  }

  lemma ReplayUnpaid(w: Shop, u: User, id: OrderId, open: bool, test: bool, c: Checkout)
    requires w.requests == map[] && id !in w.issued && Redeem(w.rows, w.caps, u, open).1
    requires c.saved && !c.paid
    ensures Run(w, CheckoutSteps(u, id, open, true, test, c))
    ensures After(w, CheckoutSteps(u, id, open, true, test, c)) ==
      Undone(w, u, open, c).(orders := Deleted(w, u, id, test, c.deleted), issued := w.issued + {id})
  {
    var steps, v := ReplayPaymentFailed(w, u, id, open, test, c.deleted);
    steps, v := Extend(w, steps, v, GiveBack(0, c.returned));
    assert steps == CheckoutSteps(u, id, open, true, test, c);
    assert v.requests == map[];
  }

  /** The shop after a checkout whose coupon could be reserved. */
  ghost function CheckedOut(w: Shop, u: User, id: OrderId, open: bool, online: bool, test: bool, c: Checkout): Shop {
    if !c.saved then Undone(w, u, open, c)
    else if online && !c.paid then
      Undone(w, u, open, c).(orders := Deleted(w, u, id, test, c.deleted), issued := w.issued + {id})
    else Placed(w, u, id, open, test)
  }

  /** The same, put together from what saving and paying left. */
  lemma CheckedOutIs(w: Shop, u: User, id: OrderId, open: bool, online: bool, test: bool, c: Checkout, w': Shop)
    requires w.requests == map[] && id !in w.issued && w.orders.Keys <= w.issued && Redeem(w.rows, w.caps, u, open).1
    requires var ok := c.saved && (online ==> c.paid);
      var reserved := Redeem(w.rows, w.caps, u, open).0;
      w' == w.(rows := if ok || !c.returned then reserved else Decrement(reserved, u),
               orders := if ok || (c.saved && !c.deleted) then w.orders[id := Order(u, true, Pending, test)] else w.orders,
               issued := if c.saved then w.issued + {id} else w.issued,
               leaked := if ok || c.returned then w.leaked else w.leaked[u := Count(w.leaked, u) + 1])
    ensures Run(w, CheckoutSteps(u, id, open, online, test, c))
    ensures After(w, CheckoutSteps(u, id, open, online, test, c)) == w'
  {
    ReplayCheckout(w, u, id, open, online, test, c);
    assert w.orders[id := Order(u, true, Pending, test)] - {id} == w.orders;
    assert w' == CheckedOut(w, u, id, open, online, test, c);
  }

  lemma ReplayCheckout(w: Shop, u: User, id: OrderId, open: bool, online: bool, test: bool, c: Checkout)
    requires w.requests == map[] && id !in w.issued && Redeem(w.rows, w.caps, u, open).1
    ensures Run(w, CheckoutSteps(u, id, open, online, test, c))
    ensures After(w, CheckoutSteps(u, id, open, online, test, c)) == CheckedOut(w, u, id, open, online, test, c)
  {
    if !c.saved {
      ReplayUnsaved(w, u, id, open, online, test, c);
    } else if online && !c.paid {
      ReplayUnpaid(w, u, id, open, test, c);
    } else {
      ReplayPlaced(w, u, id, open, online, test, c);
    }
  }

  lemma ReplayUpdate(w: Shop, id: OrderId, to: OrderStatus, written: bool, returned: bool, w': Shop)
    requires w.requests == map[] && id in w.orders
    requires var o := w.orders[id];
      var after := w.(orders := w.orders[id := o.(status := to)]);
      w' == if !written then w
            else if !(to == Cancelled && o.status != Cancelled && o.coupon) then after
            else if returned then after.(rows := Decrement(w.rows, o.user)) else after.Leak(o.user)
    ensures Run(w, UpdateSteps(w.orders[id], id, to, written, returned))
    ensures After(w, UpdateSteps(w.orders[id], id, to, written, returned)) == w'
  {
    var o := w.orders[id];
    var steps, v := Extend(w, [], w, ReadOrder(0, id, to));
    steps, v := Extend(w, steps, v, WriteOrder(0, written));
    if written && to == Cancelled && o.status != Cancelled && o.coupon {
      steps, v := Extend(w, steps, v, GiveBack(0, returned));
    }
    assert steps == UpdateSteps(o, id, to, written, returned);
    assert v.requests == map[];
  }
}
