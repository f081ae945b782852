/** The Mollie webhook (internal/modules/payment/interfaces/handler.go:77-179) with the
    business logic it runs (internal/modules/payment/application/service.go:322-413) and the
    order update behind that (internal/modules/order/application/service.go:69-122).

    One payment and its order are followed. A delivery is a sequence of steps, one per call
    to the database or to Mollie; any call may fail, and the process may die after any step.
    The stored payment status is the commit marker. */
module Webhook {
  import opened Prelude
  import opened Orders
  import opened CouponCounters

  /** Mollie's statuses; anything else it may answer is treated as non-terminal. */
  datatype PaymentStatus = Open | Canceled | Pending | Authorized | Expired | Failed | Paid | Other(name: string)
  {
    /** The statuses on which the order is cancelled. */
    predicate Dead() { Canceled? || Failed? || Expired? }
  }

  datatype Event =
    | Persisted(status: PaymentStatus)
    | OrderCreated
    | OrderUpdated
    | OrderUpdatedById
    | Push

  /** payment and order are the stored rows, None when there is no such row. emails counts
      the successful runs of HandlePaymentPaid, givenBack those of the coupon give-back. */
  datatype System = System(payment: Option<PaymentStatus>, order: Option<Order>, rows: Rows,
                           emails: nat, givenBack: nat, log: seq<Event>)

  /** What Mollie answers to this delivery, which of its calls succeed, and after how many
      steps the process dies. */
  datatype Delivery = Delivery(mollie: PaymentStatus, lookup: bool, fetch: bool, handle: bool,
                               returned: bool, reread: bool, persist: bool, lifetime: nat)

  datatype Code = Processed | AlreadyProcessed | UnknownPayment | TemporaryFailure

  datatype Pc =
    | Arrived
    | LookedUp(stored: PaymentStatus)
    | Fetched
    | Written(owes: bool)
    | RolledBack
    | Ready(shown: Option<Order>)
    | Committed(shown: Option<Order>)
    | Done(code: Code)

  /** No delivery takes more steps than this. */
  const STEPS: nat := 7

  function Publications(m: PaymentStatus, shown: Option<Order>): seq<Event> {
    if m.Paid? && shown.Some? && !shown.value.test then [OrderCreated, OrderUpdated, OrderUpdatedById, Push]
    else if m.Dead() && shown.Some? then [OrderUpdated, OrderUpdatedById]
    else []
  }

  function StepOnce(sys: System, pc: Pc, d: Delivery): (System, Pc) {
    match pc
    case Arrived =>
      (sys, if !d.lookup then Done(TemporaryFailure)
            else if sys.payment.None? then Done(UnknownPayment)
            else LookedUp(sys.payment.value))
    case LookedUp(stored) =>
      (sys, if !d.fetch then Done(TemporaryFailure)
            else if stored == d.mollie then Done(AlreadyProcessed)
            else Fetched)
    case Fetched =>
      if d.mollie.Paid? then
        if d.handle && sys.order.Some? then (sys.(emails := sys.emails + 1), Ready(sys.order))
        else (sys, Done(TemporaryFailure))
      else if d.mollie.Dead() then
        if d.handle && sys.order.Some? then
          var o := sys.order.value;
          (sys.(order := Some(o.(status := Cancelled))), Written(o.status != Cancelled && o.coupon))
        else (sys, Done(TemporaryFailure))
      else (sys, Ready(None))
    case Written(owes) =>
      (if owes && d.returned && sys.order.Some?
       then sys.(rows := Decrement(sys.rows, sys.order.value.user), givenBack := sys.givenBack + 1)
       else sys, RolledBack)
    case RolledBack => (sys, Ready(if d.reread then sys.order else None))
    case Ready(shown) =>
      if d.persist then
        (sys.(payment := Some(d.mollie), log := sys.log + [Persisted(d.mollie)]), Committed(shown))
      else (sys, Done(TemporaryFailure))
    case Committed(shown) => (sys.(log := sys.log + Publications(d.mollie, shown)), Done(Processed))
    case Done(_) => (sys, pc)
  }

  function Progress(sys: System, d: Delivery, n: nat): (System, Pc) {
    if n == 0 then (sys, Arrived)
    else var (s, pc) := Progress(sys, d, n - 1); StepOnce(s, pc, d)
  }

  /** The system after a delivery, which may have died on the way. */
  function Deliver(sys: System, d: Delivery): System {
    Progress(sys, d, Min(STEPS, d.lifetime)).0
  }

  function DeliverAll(sys: System, ds: seq<Delivery>): System {
    if ds == [] then sys else Deliver(DeliverAll(sys, ds[..|ds| - 1]), ds[|ds| - 1])
  }

  /** The rows a customer or an accountant can see. */
  predicate SameBooks(a: System, b: System) {
    a.payment == b.payment && a.order == b.order && a.rows == b.rows
  }

  /** Cancelling this order is a transition that gives a coupon's use back. */
  predicate Transits(o: Option<Order>) {
    o.Some? && o.value.status != Cancelled && o.value.coupon
  }

  /** Cancelling the order, with or without the give-back that its transition calls for. */
  function CancelOrder(sys: System, returned: bool): System {
    if sys.order.None? then sys else
      var o := sys.order.value;
      var cancelled := sys.(order := Some(o.(status := Cancelled)));
      if returned && Transits(sys.order)
      then cancelled.(rows := Decrement(sys.rows, o.user), givenBack := sys.givenBack + 1)
      else cancelled
  }

  /** The system after the business logic of a delivery, and the order it then announces. */
  function Handled(sys: System, d: Delivery): System {
    if d.mollie.Dead() then CancelOrder(sys, d.returned)
    else if d.mollie.Paid? then sys.(emails := sys.emails + 1)
    else sys
  }

  function Shown(sys: System, d: Delivery): Option<Order> {
    if d.mollie.Paid? || (d.mollie.Dead() && d.reread) then Handled(sys, d).order else None
  }

  function CommittedBy(sys: System, d: Delivery): System {
    Handled(sys, d).(payment := Some(d.mollie), log := sys.log + [Persisted(d.mollie)])
  }

  /** The delivery found news, and its business logic got through. */
  predicate Takes(sys: System, d: Delivery) {
    && d.lookup && d.fetch && sys.payment.Some? && sys.payment.value != d.mollie
    && (d.mollie.Paid? || d.mollie.Dead() ==> d.handle && sys.order.Some?)
  }

  /** A delivery in one go. */
  function RunToEnd(sys: System, d: Delivery): (System, Code) {
    if !d.lookup then (sys, TemporaryFailure)
    else if sys.payment.None? then (sys, UnknownPayment)
    else if !d.fetch then (sys, TemporaryFailure)
    else if sys.payment.value == d.mollie then (sys, AlreadyProcessed)
    else if !Takes(sys, d) then (sys, TemporaryFailure)
    else if !d.persist then (Handled(sys, d), TemporaryFailure)
    else
      var s := CommittedBy(sys, d);
      (s.(log := s.log + Publications(d.mollie, Shown(sys, d))), Processed)
  }

  /** Where a delivery to sys can be after n steps, and what the system then is. */
  ghost predicate Expected(sys: System, d: Delivery, n: nat, s: System, pc: Pc) {
    match pc
    case Arrived => n == 0 && s == sys
    case LookedUp(stored) => n == 1 && s == sys && d.lookup && sys.payment == Some(stored)
    case Fetched => n == 2 && s == sys && d.lookup && d.fetch && sys.payment.Some? && sys.payment.value != d.mollie
    case Written(owes) =>
      n == 3 && Takes(sys, d) && d.mollie.Dead() && s == CancelOrder(sys, false) && owes == Transits(sys.order)
    case RolledBack => n == 4 && Takes(sys, d) && d.mollie.Dead() && s == Handled(sys, d)
    case Ready(shown) =>
      n == (if d.mollie.Dead() then 5 else 3) && Takes(sys, d) && s == Handled(sys, d) && shown == Shown(sys, d)
    case Committed(shown) =>
      && n == (if d.mollie.Dead() then 6 else 4) && Takes(sys, d) && d.persist
      && s == CommittedBy(sys, d) && shown == Shown(sys, d)
    case Done(code) =>
      && (s, code) == RunToEnd(sys, d) && (Takes(sys, d) ==> n > 3)
      && (Takes(sys, d) && d.persist ==> n > if d.mollie.Dead() then 6 else 4)
  }

  lemma {:induction false} ProgressIsExpected(sys: System, d: Delivery, n: nat)
    ensures Expected(sys, d, n, Progress(sys, d, n).0, Progress(sys, d, n).1)
    decreases n
  {
    if n > 0 {
      ProgressIsExpected(sys, d, n - 1);
    }
  }

  /** A delivery that lives is over after seven steps, and is the delivery in one go. */
  lemma DeliveryEnds(sys: System, d: Delivery)
    ensures Progress(sys, d, STEPS) == (RunToEnd(sys, d).0, Done(RunToEnd(sys, d).1))
  {
    ProgressIsExpected(sys, d, STEPS);
  }

  /** What Mollie is answered; it delivers again after a temporary failure only. */
  lemma WhatMollieIsTold(sys: System, d: Delivery)
    ensures RunToEnd(sys, d).1 == UnknownPayment <==> d.lookup && sys.payment == None
    ensures RunToEnd(sys, d).1 == AlreadyProcessed <==> d.lookup && d.fetch && sys.payment == Some(d.mollie)
    ensures RunToEnd(sys, d).1 == Processed <==>
      && d.lookup && d.fetch && sys.payment.Some? && sys.payment.value != d.mollie && d.persist
      && (d.mollie in {Paid, Canceled, PaymentStatus.Failed, Expired} ==> d.handle && sys.order.Some?)
  {
  }

  /** What a delivery that is processed has done. Paid is confirmed, and announced to the staff as
      a new order unless it is a test; canceled, failed and expired cancel the order, give its
      coupon back on the transition, and announce the order if it can be read again; any other
      status is stored and nothing else. */
  lemma WhatProcessingDoes(sys: System, d: Delivery)
    requires RunToEnd(sys, d).1 == Processed
    ensures RunToEnd(sys, d).0.payment == Some(d.mollie)
    ensures d.mollie in {Paid, Canceled, PaymentStatus.Failed, Expired} ==> sys.order.Some?
    ensures var s := RunToEnd(sys, d).0; d.mollie == Paid ==>
      && s.order == sys.order && s.rows == sys.rows && s.emails == sys.emails + 1 && s.givenBack == sys.givenBack
      && s.log == sys.log + [Persisted(Paid)] +
                  if sys.order.value.test then [] else [OrderCreated, OrderUpdated, OrderUpdatedById, Push]
    ensures var s := RunToEnd(sys, d).0; d.mollie in {Canceled, PaymentStatus.Failed, Expired} ==>
      var o := sys.order.value;
      var gives := o.coupon && o.status != Cancelled && d.returned;
      && s.order == Some(o.(status := Cancelled)) && s.emails == sys.emails
      && s.rows == (if gives then Decrement(sys.rows, o.user) else sys.rows)
      && s.givenBack == sys.givenBack + (if gives then 1 else 0)
      && s.log == sys.log + [Persisted(d.mollie)] + if d.reread then [OrderUpdated, OrderUpdatedById] else []
    ensures var s := RunToEnd(sys, d).0; d.mollie !in {Paid, Canceled, PaymentStatus.Failed, Expired} ==>
      s == sys.(payment := Some(d.mollie), log := sys.log + [Persisted(d.mollie)])
  {
    assert sys.log + [Persisted(d.mollie)] + [] == sys.log + [Persisted(d.mollie)];
  }

  /** One that is not processed has announced and stored nothing; at most it has told the customer
      or cancelled the order, before a status could not be stored. */
  lemma WhatFailureLeaves(sys: System, d: Delivery)
    requires RunToEnd(sys, d).1 != Processed
    ensures var s := RunToEnd(sys, d).0;
      && s.payment == sys.payment && s.log == sys.log
      && (s != sys ==>
            && d.lookup && d.fetch && d.handle && !d.persist && sys.order.Some?
            && d.mollie in {Paid, Canceled, PaymentStatus.Failed, Expired})
      && (s.order != sys.order || s.rows != sys.rows ==> s.order == Some(sys.order.value.(status := Cancelled)))
  {
  }

  // ---------------------------------------------------------------------------
  // Deliveries overlap, the advisory lock makes them serial
  // ---------------------------------------------------------------------------

  /** finished: the deliveries that have let go of the payment's lock, in that order; the
      holder, if any, with its progress. Deliveries that wait have touched nothing. */
  datatype Holder = Holder(d: Delivery, taken: nat, pc: Pc)
  datatype Locked = Locked(sys: System, holder: Option<Holder>, finished: seq<Delivery>)

  datatype Turn = Acquire(d: Delivery) | Move | Unlock

  predicate CanTurn(w: Locked, t: Turn) {
    match t
    case Acquire(_) => w.holder.None?
    case Move => w.holder.Some? && w.holder.value.taken < w.holder.value.d.lifetime && !w.holder.value.pc.Done?
    case Unlock => w.holder.Some? && (w.holder.value.pc.Done? || w.holder.value.taken == w.holder.value.d.lifetime)
  }

  function TakeTurn(w: Locked, t: Turn): Locked
    requires CanTurn(w, t)
  {
    match t
    case Acquire(d) => w.(holder := Some(Holder(d, 0, Arrived)))
    case Move =>
      var h := w.holder.value;
      var (s, pc) := StepOnce(w.sys, h.pc, h.d);
      w.(sys := s, holder := Some(Holder(h.d, h.taken + 1, pc)))
    case Unlock => w.(holder := None, finished := w.finished + [w.holder.value.d])
  }

  predicate Turns(w: Locked, ts: seq<Turn>)
    decreases |ts|
  {
    ts == [] || (CanTurn(w, ts[0]) && Turns(TakeTurn(w, ts[0]), ts[1..]))
  }

  function AfterTurns(w: Locked, ts: seq<Turn>): Locked
    requires Turns(w, ts)
    decreases |ts|
  {
    if ts == [] then w else AfterTurns(TakeTurn(w, ts[0]), ts[1..])
  }

  ghost predicate Serial(sys0: System, w: Locked) {
    match w.holder
    case None => w.sys == DeliverAll(sys0, w.finished)
    case Some(h) => (w.sys, h.pc) == Progress(DeliverAll(sys0, w.finished), h.d, h.taken)
  }

  /** Once over, a delivery stays as it is. */
  lemma {:induction false} DoneStays(sys: System, d: Delivery, n: nat, m: nat)
    requires n <= m && Progress(sys, d, n).1.Done?
    ensures Progress(sys, d, m) == Progress(sys, d, n)
    decreases m
  {
    if n < m {
      DoneStays(sys, d, n, m - 1);
    }
  }

  lemma ProgressIsDelivery(sys: System, d: Delivery, n: nat)
    requires Progress(sys, d, n).1.Done? || n == d.lifetime
    requires n <= d.lifetime
    ensures Progress(sys, d, n).0 == Deliver(sys, d)
  {
    DeliveryEnds(sys, d);
    var end := Min(STEPS, d.lifetime);
    if n <= end {
      if n < end {
        DoneStays(sys, d, n, end);
      }
    } else {
      DoneStays(sys, d, STEPS, n);
    }
  }

  lemma {:induction false} SerialAfter(sys0: System, w: Locked, ts: seq<Turn>)
    requires Turns(w, ts) && Serial(sys0, w)
    requires w.holder.Some? ==> w.holder.value.taken <= w.holder.value.d.lifetime
    ensures Serial(sys0, AfterTurns(w, ts))
    decreases |ts|
  {
    if ts != [] {
      var w' := TakeTurn(w, ts[0]);
      if ts[0].Unlock? {
        var h := w.holder.value;
        ProgressIsDelivery(DeliverAll(sys0, w.finished), h.d, h.taken);
        assert w'.finished[..|w'.finished| - 1] == w.finished;
      }
      SerialAfter(sys0, w', ts[1..]);
    }
  }

  /** However deliveries overlap, fail and die, whenever the payment's lock is free the
      system is what its finished deliveries produce one after another, in the order in
      which they held the lock. */
  lemma OverlappingDeliveriesAreSerial(sys0: System, ts: seq<Turn>)
    requires Turns(Locked(sys0, None, []), ts)
    ensures var w := AfterTurns(Locked(sys0, None, []), ts);
      w.holder.None? ==> w.sys == DeliverAll(sys0, w.finished)
  {
    SerialAfter(sys0, Locked(sys0, None, []), ts);
  }

  // ---------------------------------------------------------------------------
  // Safety
  // ---------------------------------------------------------------------------

  /** A fresh online order whose payment is open. */
  predicate Fresh(sys: System) {
    sys.payment == Some(Open) && sys.order.Some? && sys.emails == 0 && sys.givenBack == 0 && sys.log == []
  }

  /** The stored statuses, oldest first, starting from open. */
  function Stored(log: seq<Event>): seq<PaymentStatus> {
    if log == [] then [Open]
    else Stored(log[..|log| - 1]) + if log[|log| - 1].Persisted? then [log[|log| - 1].status] else []
  }

  /** orderCreated is announced only right after a stored change into paid. */
  predicate AnnouncedAfterPaid(log: seq<Event>) {
    forall i :: 0 <= i < |log| && log[i].OrderCreated? ==> i > 0 && log[i - 1] == Persisted(Paid)
  }

  predicate Last(xs: seq<PaymentStatus>, x: PaymentStatus) {
    xs != [] && xs[|xs| - 1] == x
  }

  predicate NoRepeats(xs: seq<PaymentStatus>) {
    forall i :: 0 < i < |xs| ==> xs[i] != xs[i - 1]
  }

  ghost predicate Safe(sys0: System, sys: System) {
    && sys0.order.Some? && sys.payment.Some? && sys.order.Some?
    && sys.order.value.user == sys0.order.value.user && sys.order.value.coupon == sys0.order.value.coupon
    && (sys.payment.value.Paid? ==> sys.emails > 0)
    && (sys.payment.value.Dead() ==> sys.order.value.status == Cancelled)
    && AnnouncedAfterPaid(sys.log)
    && NoRepeats(Stored(sys.log)) && Last(Stored(sys.log), sys.payment.value)
    && sys.givenBack <= 1 && (sys.givenBack == 1 ==> sys.order.value.status == Cancelled)
    && sys.rows == if sys.givenBack == 1 then Decrement(sys0.rows, sys0.order.value.user) else sys0.rows
  }

  /** What is known at each point of a delivery. */
  ghost predicate SafeAt(sys0: System, sys: System, pc: Pc, d: Delivery) {
    && Safe(sys0, sys)
    && (pc.LookedUp? ==> pc.stored == sys.payment.value)
    && (pc.Fetched? || pc.Written? || pc.RolledBack? || pc.Ready? ==> sys.payment.value != d.mollie)
    && (pc.Written? || pc.RolledBack? ==> d.mollie.Dead() && sys.order.value.status == Cancelled)
    && (pc.Written? && pc.owes ==> sys.givenBack == 0)
    && (pc.Ready? && d.mollie.Paid? ==> sys.emails > 0)
    && (pc.Ready? && d.mollie.Dead() ==> sys.order.value.status == Cancelled)
    && (pc.Committed? ==> sys.log != [] && sys.log[|sys.log| - 1] == Persisted(d.mollie))
  }

  lemma StoredAppend(log: seq<Event>, e: Event)
    ensures Stored(log + [e]) == Stored(log) + if e.Persisted? then [e.status] else []
  {
  }

  lemma {:induction false} StoredAppendOthers(log: seq<Event>, es: seq<Event>)
    requires forall i :: 0 <= i < |es| ==> !es[i].Persisted?
    ensures Stored(log + es) == Stored(log)
    decreases |es|
  {
    if es == [] {
      assert log + es == log;
    } else {
      var last := |es| - 1;
      StoredAppendOthers(log, es[..last]);
      StoredAppend(log + es[..last], es[last]);
      assert log + es == log + es[..last] + [es[last]];
    }
  }

  lemma LogPersisted(log: seq<Event>, was: PaymentStatus, m: PaymentStatus)
    requires NoRepeats(Stored(log)) && Last(Stored(log), was) && was != m && AnnouncedAfterPaid(log)
    ensures NoRepeats(Stored(log + [Persisted(m)])) && Last(Stored(log + [Persisted(m)]), m)
    ensures AnnouncedAfterPaid(log + [Persisted(m)])
  {
    StoredAppend(log, Persisted(m));
  }

  lemma PersistIsSafe(sys0: System, sys: System, pc: Pc, d: Delivery)
    requires Fresh(sys0) && SafeAt(sys0, sys, pc, d) && pc.Ready?
    ensures SafeAt(sys0, StepOnce(sys, pc, d).0, StepOnce(sys, pc, d).1, d)
  {
    LogPersisted(sys.log, sys.payment.value, d.mollie);
  }

  lemma PublishIsSafe(sys0: System, sys: System, pc: Pc, d: Delivery)
    requires Fresh(sys0) && SafeAt(sys0, sys, pc, d) && pc.Committed?
    ensures SafeAt(sys0, StepOnce(sys, pc, d).0, StepOnce(sys, pc, d).1, d)
  {
    StoredAppendOthers(sys.log, Publications(d.mollie, pc.shown));
  }

  lemma BusinessIsSafe(sys0: System, sys: System, pc: Pc, d: Delivery)
    requires Fresh(sys0) && SafeAt(sys0, sys, pc, d) && !pc.Ready? && !pc.Committed?
    ensures SafeAt(sys0, StepOnce(sys, pc, d).0, StepOnce(sys, pc, d).1, d)
  {
  }

  lemma StepIsSafe(sys0: System, sys: System, pc: Pc, d: Delivery)
    requires Fresh(sys0) && SafeAt(sys0, sys, pc, d)
    ensures SafeAt(sys0, StepOnce(sys, pc, d).0, StepOnce(sys, pc, d).1, d)
  {
    if pc.Ready? {
      PersistIsSafe(sys0, sys, pc, d);
    } else if pc.Committed? {
      PublishIsSafe(sys0, sys, pc, d);
    } else {
      BusinessIsSafe(sys0, sys, pc, d);
    }
  }

  lemma {:induction false} ProgressIsSafe(sys0: System, sys: System, d: Delivery, n: nat)
    requires Fresh(sys0) && Safe(sys0, sys)
    ensures SafeAt(sys0, Progress(sys, d, n).0, Progress(sys, d, n).1, d)
    decreases n
  {
    if n > 0 {
      ProgressIsSafe(sys0, sys, d, n - 1);
      StepIsSafe(sys0, Progress(sys, d, n - 1).0, Progress(sys, d, n - 1).1, d);
    }
  }

  /** For any sequence of deliveries, with any Mollie statuses, failures and deaths: a
      stored paid means the paid logic succeeded, a stored canceled, failed or expired means
      the order is cancelled, orderCreated follows a stored change into paid, no stored
      status is stored twice in a row, and the coupon is given back at most once. */
  lemma {:induction false} DeliveriesAreSafe(sys0: System, ds: seq<Delivery>)
    requires Fresh(sys0)
    ensures Safe(sys0, DeliverAll(sys0, ds))
    decreases |ds|
  {
    if ds == [] {
      assert Stored(sys0.log) == [Open];
    } else {
      DeliveriesAreSafe(sys0, ds[..|ds| - 1]);
      var d := ds[|ds| - 1];
      ProgressIsSafe(sys0, DeliverAll(sys0, ds[..|ds| - 1]), d, Min(STEPS, d.lifetime));
    }
  }

  // ---------------------------------------------------------------------------
  // Retries
  // ---------------------------------------------------------------------------

  /** A delivery on which nothing goes wrong. */
  predicate Flawless(d: Delivery) {
    d.lookup && d.fetch && d.handle && d.returned && d.reread && d.persist && d.lifetime >= STEPS
  }

  /** The delivery gets as far as writing the order as cancelled. */
  predicate Cancels(sys: System, d: Delivery) {
    Takes(sys, d) && d.mollie.Dead() && d.lifetime >= 3
  }

  /** It does so to an order that holds a coupon, and the use is not given back: that call
      fails, or the process dies before it. */
  predicate LosesGiveBack(sys: System, d: Delivery) {
    Cancels(sys, d) && (!d.returned || d.lifetime == 3) && Transits(sys.order)
  }

  predicate SomeCancels(sys: System, ds: seq<Delivery>) {
    ds != [] && (SomeCancels(sys, ds[..|ds| - 1]) || Cancels(DeliverAll(sys, ds[..|ds| - 1]), ds[|ds| - 1]))
  }

  predicate SomeLosesGiveBack(sys: System, ds: seq<Delivery>) {
    ds != [] &&
    (SomeLosesGiveBack(sys, ds[..|ds| - 1]) || LosesGiveBack(DeliverAll(sys, ds[..|ds| - 1]), ds[|ds| - 1]))
  }

  /** A delivery that does not commit leaves the books alone, or has cancelled the order. */
  lemma UncommittedDelivery(sys: System, d: Delivery)
    requires sys.payment.Some? && Deliver(sys, d).payment == sys.payment
    ensures SameBooks(Deliver(sys, d), if Cancels(sys, d) then CancelOrder(sys, !LosesGiveBack(sys, d)) else sys)
  {
    ProgressIsExpected(sys, d, Min(STEPS, d.lifetime));
  }

  lemma FlawlessDelivery(sys: System, d: Delivery)
    requires sys.payment.Some? && sys.order.Some? && Flawless(d)
    ensures SameBooks(Deliver(sys, d), if sys.payment.value == d.mollie then sys else CommittedBy(sys, d))
  {
    ProgressIsExpected(sys, d, STEPS);
  }

  /** Deliveries none of which commits. */
  predicate AllUncommitted(sys: System, ds: seq<Delivery>) {
    forall n :: 0 <= n <= |ds| ==> DeliverAll(sys, ds[..n]).payment == sys.payment
  }

  /** After deliveries that did not commit, of whatever statuses, the books are untouched, or
      the order has been cancelled; its use was given back then unless one of them lost it. */
  lemma {:induction false} UncommittedDeliveries(sys: System, ds: seq<Delivery>)
    requires sys.payment.Some? && AllUncommitted(sys, ds)
    ensures SomeLosesGiveBack(sys, ds) ==> SomeCancels(sys, ds) && Transits(sys.order)
    ensures SameBooks(DeliverAll(sys, ds),
                      if SomeCancels(sys, ds) then CancelOrder(sys, !SomeLosesGiveBack(sys, ds)) else sys)
    decreases |ds|
  {
    if ds != [] {
      var front, d := ds[..|ds| - 1], ds[|ds| - 1];
      assert forall n :: 0 <= n <= |front| ==> front[..n] == ds[..n];
      UncommittedDeliveries(sys, front);
      assert ds[..|ds|] == ds;
      UncommittedDelivery(DeliverAll(sys, front), d);
    }
  }

  /** Retry convergence: any number of deliveries that failed or died before their commit,
      whatever Mollie answered to them, followed by one on which nothing goes wrong, leave the
      same payment, order and counters as that one alone; exactly unless one of the former
      lost the coupon's give-back, which no later delivery makes up for, or cancelled an order
      that the last one does not. */
  lemma RetriesConverge(sys: System, ds: seq<Delivery>, last: Delivery)
    requires sys.payment.Some? && sys.payment.value != last.mollie && sys.order.Some?
    requires AllUncommitted(sys, ds) && Flawless(last)
    requires Transits(sys.order) ==> Count(sys.rows.users, sys.order.value.user) > 0
    ensures SameBooks(Deliver(DeliverAll(sys, ds), last), Deliver(sys, last)) <==>
      && !SomeLosesGiveBack(sys, ds)
      && (last.mollie.Dead() || sys.order.value.status == Cancelled || !SomeCancels(sys, ds))
  {
    UncommittedDeliveries(sys, ds);
    FlawlessDelivery(sys, last);
    FlawlessDelivery(DeliverAll(sys, ds), last);
    if Transits(sys.order) {
      var u := sys.order.value.user;
      assert Decrement(sys.rows, u).users[u] == sys.rows.users[u] - 1;
    }
  }

  /** In particular a status that failed any number of times goes through in the end as if at
      first, unless the give-back was lost. */
  lemma RetriesOfOneStatusConverge(sys: System, ds: seq<Delivery>, last: Delivery)
    requires sys.payment.Some? && sys.payment.value != last.mollie && sys.order.Some?
    requires AllUncommitted(sys, ds) && Flawless(last)
    requires forall i :: 0 <= i < |ds| && ds[i].lookup && ds[i].fetch ==> ds[i].mollie == last.mollie
    requires Transits(sys.order) ==> Count(sys.rows.users, sys.order.value.user) > 0
    ensures SameBooks(Deliver(DeliverAll(sys, ds), last), Deliver(sys, last)) <==> !SomeLosesGiveBack(sys, ds)
  {
    RetriesConverge(sys, ds, last);
    CancelledByItsStatus(sys, ds, last.mollie);
  }

  lemma {:induction false} CancelledByItsStatus(sys: System, ds: seq<Delivery>, m: PaymentStatus)
    requires forall i :: 0 <= i < |ds| && ds[i].lookup && ds[i].fetch ==> ds[i].mollie == m
    ensures SomeCancels(sys, ds) ==> m.Dead()
    decreases |ds|
  {
    if ds != [] {
      CancelledByItsStatus(sys, ds[..|ds| - 1], m);
    }
  }

  /** Once a status is stored, further deliveries of it change nothing at all. */
  lemma LaterDeliveriesAreIdle(sys: System, d: Delivery)
    requires sys.payment == Some(d.mollie)
    ensures Deliver(sys, d) == sys
  {
    var n := Min(STEPS, d.lifetime);
    for i := 0 to n
      invariant Progress(sys, d, i).0 == sys
      invariant match Progress(sys, d, i).1 case Arrived => true case LookedUp(stored) => stored == d.mollie
                                            case Done(_) => true case _ => false
    {
    }
  }

  // ---------------------------------------------------------------------------
  // Cancelled orders announced as new
  // ---------------------------------------------------------------------------

  lemma DeliveryCancels(sys: System, d: Delivery)
    requires sys.order.Some?
    ensures Deliver(sys, d).order.Some?
    ensures Deliver(sys, d).order.value.status == Cancelled <==> sys.order.value.status == Cancelled || Cancels(sys, d)
    ensures Deliver(sys, d).order.value.test == sys.order.value.test
  {
    ProgressIsExpected(sys, d, Min(STEPS, d.lifetime));
  }

  /** Only a delivery that writes the order as cancelled cancels it, and nothing reopens it. */
  lemma {:induction false} CancelledIffSomeCancels(sys: System, ds: seq<Delivery>)
    requires sys.order.Some? && sys.order.value.status != Cancelled
    ensures DeliverAll(sys, ds).order.Some? && DeliverAll(sys, ds).order.value.test == sys.order.value.test
    ensures DeliverAll(sys, ds).order.value.status == Cancelled <==> SomeCancels(sys, ds)
    decreases |ds|
  {
    if ds != [] {
      CancelledIffSomeCancels(sys, ds[..|ds| - 1]);
      DeliveryCancels(DeliverAll(sys, ds[..|ds| - 1]), ds[|ds| - 1]);
    }
  }

  /** The delivery brings the news that the payment is paid, and lives to tell the staff. */
  predicate Announces(sys: System, d: Delivery) {
    Takes(sys, d) && d.mollie.Paid? && d.persist && d.lifetime >= 5 && !sys.order.value.test
  }

  lemma DeliveryAnnounces(sys: System, d: Delivery)
    ensures sys.log <= Deliver(sys, d).log
    ensures OrderCreated in Deliver(sys, d).log[|sys.log|..] <==> Announces(sys, d)
  {
    ProgressIsExpected(sys, d, Min(STEPS, d.lifetime));
    var log := Deliver(sys, d).log;
    var committed, told := [Persisted(d.mollie)], Publications(d.mollie, Shown(sys, d));
    assert sys.log + committed + told == sys.log + (committed + told);
    assert log == sys.log || log == sys.log + committed || log == sys.log + (committed + told);
  }

  /** A delivery announces as new an order that is cancelled exactly when it announces, and a
      delivery before it has cancelled the order: then Mollie had reported the payment dead. */
  lemma CancelledOrderIsAnnounced(sys: System, ds: seq<Delivery>, d: Delivery)
    requires sys.order.Some? && sys.order.value.status != Cancelled
    ensures var before := DeliverAll(sys, ds); var after := Deliver(before, d);
      && before.log <= after.log && after.order.Some?
      && (OrderCreated in after.log[|before.log|..] && after.order.value.status == Cancelled <==>
          Announces(before, d) && SomeCancels(sys, ds))
  {
    var before := DeliverAll(sys, ds);
    CancelledIffSomeCancels(sys, ds);
    DeliveryCancels(before, d);
    DeliveryAnnounces(before, d);
  }

  /** It does happen, with nothing going wrong: a payment that dies and is then reported paid. */
  lemma PaidAfterDead(sys: System, dead: Delivery, paid: Delivery)
    requires Fresh(sys) && !sys.order.value.test
    requires Flawless(dead) && dead.mollie.Dead() && Flawless(paid) && paid.mollie.Paid?
    ensures SomeCancels(sys, [dead]) && Announces(DeliverAll(sys, [dead]), paid)
    ensures Deliver(DeliverAll(sys, [dead]), paid).payment == Some(Paid)
  {
    assert [dead][..0] == [];
    DeliveryEnds(sys, dead);
    DeliveryEnds(DeliverAll(sys, [dead]), paid);
    assert DeliverAll(sys, [dead]) == Deliver(sys, dead);
  }

  // ---------------------------------------------------------------------------
  // The handler
  // ---------------------------------------------------------------------------

  class PaymentHandler {
    var payment: Option<PaymentStatus>
    var order: Option<Order>
    var rows: Rows
    ghost var emails: nat
    ghost var givenBack: nat
    var log: seq<Event>

    constructor (sys: System)
      ensures State() == sys
    {
      payment, order, rows, log := sys.payment, sys.order, sys.rows, sys.log;
      emails, givenBack := sys.emails, sys.givenBack;
    }

    ghost function State(): System
      reads this
    {
      System(payment, order, rows, emails, givenBack, log)
    }

    method HandlePaymentPaid(succeeds: bool) returns (shown: Option<Order>, ok: bool)
      modifies this`emails
      ensures ok == (succeeds && order.Some?) && shown == (if ok then order else None)
      ensures emails == old(emails) + if ok then 1 else 0
    {
      if !succeeds || order.None? {
        return None, false;
      }
      emails := emails + 1;
      return order, true;
    }

    /** Cancels the order through the order service, which gives the coupon's use back on
        the transition, and reads the order again for the announcement. */
    method HandlePaymentFailed(updates: bool, returned: bool, reread: bool) returns (shown: Option<Order>, ok: bool)
      modifies this`order, this`rows, this`givenBack
      ensures ok == (updates && old(order).Some?)
      ensures !ok ==> State() == old(State())
      ensures ok ==> State() == CancelOrder(old(State()), returned)
      ensures ok ==> shown == if reread then order else None
    {
      if !updates || order.None? {
        return None, false;
      }
      var o := order.value;
      order := Some(o.(status := Cancelled));
      if o.status != Cancelled && o.coupon && returned {
        rows := Rows(if rows.used > 0 then rows.used - 1 else rows.used,
                     if o.user in rows.users && rows.users[o.user] > 0
                     then rows.users[o.user := rows.users[o.user] - 1] else rows.users);
        givenBack := givenBack + 1;
      }
      return if reread then order else None, true;
    }

    method PersistPaymentStatus(m: PaymentStatus, succeeds: bool) returns (ok: bool)
      modifies this`payment, this`log
      ensures ok == succeeds
      ensures payment == (if ok then Some(m) else old(payment))
      ensures log == if ok then old(log) + [Persisted(m)] else old(log)
    {
      if succeeds {
        payment, log := Some(m), log + [Persisted(m)];
      }
      ok := succeeds;
    }

    /** One delivery, run to its end while holding the payment's lock. */
    method UpdatePaymentStatus(d: Delivery) returns (code: Code)
      modifies this
      ensures (State(), code) == RunToEnd(old(State()), d)
    {
      if !d.lookup {
        return TemporaryFailure;
      }
      if payment.None? {
        return UnknownPayment;
      }
      if !d.fetch {
        return TemporaryFailure;
      }
      if d.mollie == payment.value {
        return AlreadyProcessed;
      }
      var shown, ok := None, true;
      match d.mollie {
        case Paid => shown, ok := HandlePaymentPaid(d.handle);
        case Canceled | Failed | Expired => shown, ok := HandlePaymentFailed(d.handle, d.returned, d.reread);
        case _ =>
      }
      if !ok {
        return TemporaryFailure;
      }
      ok := PersistPaymentStatus(d.mollie, d.persist);
      if !ok {
        return TemporaryFailure;
      }
      if shown.Some? && d.mollie.Paid? && !shown.value.test {
        log := log + [OrderCreated, OrderUpdated, OrderUpdatedById, Push];
      } else if shown.Some? && d.mollie.Dead() {
        log := log + [OrderUpdated, OrderUpdatedById];
      } else {
        assert log + [] == log;
      }
      return Processed;
    }
  }
}
