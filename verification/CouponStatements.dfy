/** Orders and coupon transactions together: the shop of CouponLifecycle whose reservations and
    give-backs are not single steps but the transactions of CouponTransactions, statement by
    statement between those of other requests
    (internal/api/graphql/resolver/order.go:433-513, internal/modules/order/application/service.go:69-136,
    internal/modules/coupon/infrastructure/repository.go:98-198).

    On every disciplined run the transactions act as the single steps do. */
module CouponStatements {
  import opened Prelude
  import opened Orders
  import opened CouponCounters
  import Transactions = CouponTransactions
  import Balance = CouponBalance
  import Lifecycle = CouponLifecycle

  type OrderId = Lifecycle.OrderId
  type RequestId = Lifecycle.RequestId

  /** calls: the transaction each request is waiting for. Who waits for a reservation is not
      among the requests yet. */
  datatype System = System(db: Transactions.Db, orders: map<OrderId, Order>,
                           requests: map<RequestId, Lifecycle.Request>,
                           issued: set<OrderId>, leaked: map<User, int>, calls: map<RequestId, TxId>)
  {
    /** The shop with what is committed. */
    function Shop(): Lifecycle.Shop {
      Lifecycle.Shop.Shop(db.rows, db.caps, orders, requests, issued, leaked)
    }

    function WithShop(w: Lifecycle.Shop): System {
      this.(orders := w.orders, requests := w.requests, issued := w.issued, leaked := w.leaked)
    }
  }

  /** Aside is a step of the shop that touches no counter, or a give-back that fails before
      its transaction begins. */
  datatype Step =
    | BeginReserve(r: RequestId, t: TxId, u: User)
    | BeginGiveBack(r: RequestId, t: TxId)
    | Statement(r: RequestId, statement: Transactions.Step)
    | Commit(r: RequestId)
    | Abort(r: RequestId)
    | Aside(step: Lifecycle.Step)

  predicate IsStatement(s: Transactions.Step) {
    s.SelectForUpdate? || s.UpsertUser? || s.BumpCoupon? || s.LowerUser? || s.LowerCoupon?
  }

  predicate IsAside(s: Lifecycle.Step) {
    !s.Reserve? && (s.GiveBack? ==> !s.ok)
  }

  predicate Waits(sys: System, s: Lifecycle.Step) {
    !s.SavePlainOrder? && !s.SweepTestOrder? && s.r in sys.calls
  }

  ghost predicate Enabled(sys: System, s: Step) {
    match s
    case BeginReserve(r, t, u) => r !in sys.requests && r !in sys.calls && t !in sys.db.txs
    case BeginGiveBack(r, t) =>
      r in sys.requests && sys.requests[r].GivingBack? && r !in sys.calls && t !in sys.db.txs
    case Statement(r, statement) =>
      && r in sys.calls && IsStatement(statement) && statement.t == sys.calls[r]
      && Transactions.Enabled(sys.db, statement)
    case Commit(r) => r in sys.calls && Transactions.Enabled(sys.db, Transactions.CommitTx(sys.calls[r]))
    case Abort(r) => r in sys.calls && Transactions.Enabled(sys.db, Transactions.Abort(sys.calls[r]))
    case Aside(step) => IsAside(step) && !Waits(sys, step) && Lifecycle.Enabled(sys.Shop(), step)
  }

  ghost function Next(sys: System, s: Step): System
    requires Enabled(sys, s)
  {
    match s
    case BeginReserve(r, t, u) =>
      sys.(db := Transactions.Next(sys.db, Transactions.BeginRedeem(t, u)), calls := sys.calls[r := t])
    case BeginGiveBack(r, t) =>
      sys.(db := Transactions.Next(sys.db, Transactions.BeginGiveBack(t, sys.requests[r].u)), calls := sys.calls[r := t])
    case Statement(r, statement) =>
      var db' := Transactions.Next(sys.db, statement);
      sys.(db := db', calls := if db'.txs[statement.t].Finished? then sys.calls - {r} else sys.calls)
    case Commit(r) =>
      var x := sys.db.txs[sys.calls[r]];
      sys.(db := Transactions.Next(sys.db, Transactions.CommitTx(sys.calls[r])), calls := sys.calls - {r},
           requests := if x.Ready? then sys.requests[r := Lifecycle.Reserved(x.u)] else sys.requests - {r})
    case Abort(r) =>
      var sys' := sys.(db := Transactions.Next(sys.db, Transactions.Abort(sys.calls[r])), calls := sys.calls - {r});
      if r in sys.requests && sys.requests[r].GivingBack? then
        sys'.(requests := sys.requests - {r},
              leaked := sys.leaked[sys.requests[r].u := Count(sys.leaked, sys.requests[r].u) + 1])
      else sys'
    case Aside(step) => sys.WithShop(Lifecycle.Next(sys.Shop(), step))
  }

  /** What a step is to the shop: a commit or an abort ends the call, a statement does nothing. */
  function Visible(sys: System, s: Step): seq<Lifecycle.Step>
    requires s.Commit? || s.Abort? ==> s.r in sys.calls && sys.calls[s.r] in sys.db.txs
  {
    match s
    case Commit(r) =>
      var x := sys.db.txs[sys.calls[r]];
      if x.Ready? then [Lifecycle.Reserve(r, x.u, true)] else [Lifecycle.GiveBack(r, true)]
    case Abort(r) => if r in sys.requests && sys.requests[r].GivingBack? then [Lifecycle.GiveBack(r, false)] else []
    case Aside(step) => [step]
    case _ => []
  }

  // ---------------------------------------------------------------------------
  // How requests and transactions belong together
  // ---------------------------------------------------------------------------

  predicate Redeems(x: Transactions.Tx) {
    x.Redeeming? || x.HoldsCoupon? || x.UserCounted? || x.Ready?
  }

  predicate CallIsSound(sys: System, r: RequestId)
    requires r in sys.calls
  {
    sys.calls[r] in sys.db.txs &&
    var x := sys.db.txs[sys.calls[r]];
    if r in sys.requests then sys.requests[r].GivingBack? && Balance.Gives(x, sys.requests[r].u) else Redeems(x)
  }

  /** The requests of a user that wait for a give-back. */
  function Callers(calls: map<RequestId, TxId>, requests: map<RequestId, Lifecycle.Request>, u: User): set<RequestId> {
    set r | r in calls && r in requests && requests[r].GivingBack? && requests[r].u == u
  }

  ghost predicate CallsAreSound(sys: System) {
    && (forall r :: r in sys.calls ==> CallIsSound(sys, r))
    && (forall q, r :: q in sys.calls && r in sys.calls && sys.calls[q] == sys.calls[r] ==> q == r)
  }

  /** Every give-back under way has its caller. */
  ghost predicate GiversAreCalled(sys: System) {
    forall u :: |Balance.Givers(sys.db.txs, u)| == |Callers(sys.calls, sys.requests, u)|
  }

  ghost predicate Inv(sys: System) {
    && Lifecycle.Inv(sys.Shop())
    && Balance.Sound(sys.db)
    && CallsAreSound(sys)
    && GiversAreCalled(sys)
  }

  lemma CallersSplit(calls: map<RequestId, TxId>, requests: map<RequestId, Lifecycle.Request>, r: RequestId, u: User)
    ensures |Callers(calls, requests, u)| == |Callers(calls - {r}, requests - {r}, u)| +
      if r in calls && r in requests && requests[r].GivingBack? && requests[r].u == u then 1 else 0
  {
    var all, rest := Callers(calls, requests, u), Callers(calls - {r}, requests - {r}, u);
    if r in all {
      assert all == rest + {r};
    } else {
      assert all == rest;
    }
  }

  /** One request and its transaction move; the others stay as they are. */
  ghost predicate Moves(sys: System, sys': System, r: RequestId, t: TxId) {
    && sys'.calls - {r} == sys.calls - {r} && sys'.requests - {r} == sys.requests - {r}
    && t in sys'.db.txs && sys'.db.txs == sys.db.txs[t := sys'.db.txs[t]]
    && (r in sys.calls ==> sys.calls[r] == t) && (r in sys'.calls ==> sys'.calls[r] == t)
    && (forall q :: q in sys.calls && q != r ==> sys.calls[q] != t)
  }

  predicate CallerOf(sys: System, r: RequestId, u: User) {
    r in sys.calls && r in sys.requests && sys.requests[r].GivingBack? && sys.requests[r].u == u
  }

  predicate GiverIs(sys: System, t: TxId, u: User) {
    t in sys.db.txs && Balance.Gives(sys.db.txs[t], u)
  }

  lemma MoveKeepsCalls(sys: System, sys': System, r: RequestId, t: TxId)
    requires CallsAreSound(sys) && Moves(sys, sys', r, t)
    requires r in sys'.calls ==> CallIsSound(sys', r)
    ensures CallsAreSound(sys')
  {
    forall q | q in sys'.calls && q != r
      ensures q in sys.calls && sys'.calls[q] == sys.calls[q] && CallIsSound(sys', q)
    {
      OtherIsSame(sys.calls, sys'.calls, r, q);
      OtherIsSame(sys.requests, sys'.requests, r, q);
      assert CallIsSound(sys, q);
    }
  }

  lemma OtherIsSame<V>(m: map<int, V>, m': map<int, V>, r: int, q: int)
    requires m' - {r} == m - {r} && q != r
    ensures q in m' <==> q in m
    ensures q in m ==> m'[q] == m[q]
  {
    assert q in m <==> q in m - {r};
    assert q in m' <==> q in m' - {r};
    if q in m {
      assert m[q] == (m - {r})[q] == (m' - {r})[q] == m'[q];
    }
  }

  lemma MoveKeepsGivers(sys: System, sys': System, r: RequestId, t: TxId)
    requires GiversAreCalled(sys) && Moves(sys, sys', r, t)
    requires forall u :: CallerOf(sys, r, u) == GiverIs(sys, t, u) && CallerOf(sys', r, u) == GiverIs(sys', t, u)
    ensures GiversAreCalled(sys')
  {
    forall u
      ensures |Balance.Givers(sys'.db.txs, u)| == |Callers(sys'.calls, sys'.requests, u)|
    {
      assert CallerOf(sys, r, u) == GiverIs(sys, t, u) && CallerOf(sys', r, u) == GiverIs(sys', t, u);
      Balance.GiversAfterMove(sys.db.txs, t, sys'.db.txs[t], u);
      CallersSplit(sys.calls, sys.requests, r, u);
      CallersSplit(sys'.calls, sys'.requests, r, u);
    }
  }

  // ---------------------------------------------------------------------------
  // Every step of a conserved shop's transactions is what it looks like
  // ---------------------------------------------------------------------------

  /** A shop that conserves its uses starts no give-back without one. */
  lemma GiveBackIsDisciplined(sys: System, r: RequestId, t: TxId)
    requires Inv(sys) && Enabled(sys, BeginGiveBack(r, t))
    ensures Balance.Disciplined(sys.db, Transactions.BeginGiveBack(t, sys.requests[r].u))
  {
    var u := sys.requests[r].u;
    var calling, owing := Callers(sys.calls, sys.requests, u), Lifecycle.Owing(sys.requests, u);
    assert Lifecycle.Gap(sys.Shop(), u) == 0;
    assert r in owing && calling <= owing - {r};
    Smaller(calling, owing - {r});
  }

  lemma {:induction false} Smaller<T>(a: set<T>, b: set<T>)
    requires a <= b
    ensures |a| <= |b|
    decreases |a|
  {
    if a != {} {
      var x :| x in a;
      Smaller(a - {x}, b - {x});
    }
  }

  /** The step is to the shop what Visible says it is. */
  ghost predicate Projects(sys: System, s: Step)
    requires Enabled(sys, s)
  {
    var seen := Visible(sys, s);
    if seen == [] then Next(sys, s).Shop() == sys.Shop()
    else Lifecycle.Enabled(sys.Shop(), seen[0]) && Next(sys, s).Shop() == Lifecycle.Next(sys.Shop(), seen[0])
  }

  lemma BeginReserveKeeps(sys: System, s: Step)
    requires Inv(sys) && Enabled(sys, s) && s.BeginReserve?
    ensures Projects(sys, s) && Inv(Next(sys, s))
  {
    Balance.NextSound(sys.db, Transactions.BeginRedeem(s.t, s.u));
    NewTransaction(sys, s.t);
    MoveKeepsCalls(sys, Next(sys, s), s.r, s.t);
    MoveKeepsGivers(sys, Next(sys, s), s.r, s.t);
  }

  lemma NewTransaction(sys: System, t: TxId)
    requires CallsAreSound(sys) && t !in sys.db.txs
    ensures forall q :: q in sys.calls ==> sys.calls[q] != t
  {
    forall q | q in sys.calls
      ensures sys.calls[q] != t
    {
      assert CallIsSound(sys, q);
    }
  }

  lemma BeginGiveBackKeeps(sys: System, s: Step)
    requires Inv(sys) && Enabled(sys, s) && s.BeginGiveBack?
    ensures Projects(sys, s) && Inv(Next(sys, s))
  {
    GiveBackIsDisciplined(sys, s.r, s.t);
    Balance.NextSound(sys.db, Transactions.BeginGiveBack(s.t, sys.requests[s.r].u));
    NewTransaction(sys, s.t);
    MoveKeepsCalls(sys, Next(sys, s), s.r, s.t);
    MoveKeepsGivers(sys, Next(sys, s), s.r, s.t);
  }

  /** The call of a request moves its own transaction. */
  lemma CallMoves(sys: System, s: Step)
    requires CallsAreSound(sys) && Enabled(sys, s) && (s.Statement? || s.Commit? || s.Abort?)
    ensures Moves(sys, Next(sys, s), s.r, sys.calls[s.r])
  {
    assert CallIsSound(sys, s.r);
  }

  lemma StatementStays(sys: System, s: Step)
    requires CallsAreSound(sys) && Enabled(sys, s) && s.Statement?
    ensures var sys' := Next(sys, s);
      && sys'.Shop() == sys.Shop() && (s.r in sys'.calls ==> CallIsSound(sys', s.r))
      && forall u :: CallerOf(sys, s.r, u) == GiverIs(sys, s.statement.t, u) &&
                     CallerOf(sys', s.r, u) == GiverIs(sys', s.statement.t, u)
  {
    assert CallIsSound(sys, s.r);
  }

  lemma StatementKeeps(sys: System, s: Step)
    requires Inv(sys) && Enabled(sys, s) && s.Statement?
    ensures Projects(sys, s) && Inv(Next(sys, s))
  {
    CallMoves(sys, s);
    StatementStays(sys, s);
    Balance.NextSound(sys.db, s.statement);
    MoveKeepsCalls(sys, Next(sys, s), s.r, s.statement.t);
    MoveKeepsGivers(sys, Next(sys, s), s.r, s.statement.t);
  }

  lemma CommitProjects(sys: System, s: Step)
    requires Inv(sys) && Enabled(sys, s) && s.Commit?
    ensures Projects(sys, s)
  {
    var t := sys.calls[s.r];
    assert CallIsSound(sys, s.r);
    if sys.db.txs[t].Ready? {
      Transactions.CommittedRedemptionIsAtomic(sys.db, t);
    } else {
      assert Balance.Found(sys.db.txs[t]);
      Transactions.CommittedGiveBackIsAtomic(sys.db, t);
    }
  }

  lemma AbortProjects(sys: System, s: Step)
    requires CallsAreSound(sys) && Enabled(sys, s) && s.Abort?
    ensures Projects(sys, s)
  {
    assert CallIsSound(sys, s.r);
  }

  /** A request whose call has ended is no caller any more. */
  lemma CallEnds(sys: System, s: Step)
    requires CallsAreSound(sys) && GiversAreCalled(sys) && Enabled(sys, s) && (s.Commit? || s.Abort?)
    ensures CallsAreSound(Next(sys, s)) && GiversAreCalled(Next(sys, s))
  {
    assert CallIsSound(sys, s.r);
    CallMoves(sys, s);
    MoveKeepsCalls(sys, Next(sys, s), s.r, sys.calls[s.r]);
    MoveKeepsGivers(sys, Next(sys, s), s.r, sys.calls[s.r]);
  }

  lemma CommitKeeps(sys: System, s: Step)
    requires Inv(sys) && Enabled(sys, s) && s.Commit?
    ensures Projects(sys, s) && Inv(Next(sys, s))
  {
    CommitProjects(sys, s);
    Lifecycle.NextInv(sys.Shop(), Visible(sys, s)[0]);
    Balance.NextSound(sys.db, Transactions.CommitTx(sys.calls[s.r]));
    CallEnds(sys, s);
  }

  lemma AbortKeeps(sys: System, s: Step)
    requires Inv(sys) && Enabled(sys, s) && s.Abort?
    ensures Projects(sys, s) && Inv(Next(sys, s))
  {
    AbortProjects(sys, s);
    if Visible(sys, s) != [] {
      Lifecycle.NextInv(sys.Shop(), Visible(sys, s)[0]);
    }
    Balance.NextSound(sys.db, Transactions.Abort(sys.calls[s.r]));
    CallEnds(sys, s);
  }

  /** The shop's own steps are disciplined as in CouponLifecycle; nothing is asked of the others. */
  ghost predicate Disciplined(sys: System, s: Step)
    requires Enabled(sys, s)
  {
    s.Aside? ==> Lifecycle.Disciplined(sys.Shop(), s.step)
  }

  /** A step aside leaves alone the requests that wait for a transaction. */
  lemma AsideSpares(sys: System, s: Step, q: RequestId)
    requires Enabled(sys, s) && s.Aside? && q in sys.calls
    ensures q in Next(sys, s).requests <==> q in sys.requests
    ensures q in sys.requests ==> Next(sys, s).requests[q] == sys.requests[q]
  {
  }

  lemma AsideCalls(sys: System, s: Step)
    requires CallsAreSound(sys) && GiversAreCalled(sys) && Enabled(sys, s) && s.Aside?
    ensures CallsAreSound(Next(sys, s)) && GiversAreCalled(Next(sys, s))
  {
    SparedCalls(sys, Next(sys, s)) by {
      forall q | q in sys.calls
        ensures q in Next(sys, s).requests <==> q in sys.requests
        ensures q in sys.requests ==> Next(sys, s).requests[q] == sys.requests[q]
      {
        AsideSpares(sys, s, q);
      }
    }
  }

  lemma SparedCalls(sys: System, sys': System)
    requires CallsAreSound(sys) && GiversAreCalled(sys) && sys'.db == sys.db && sys'.calls == sys.calls
    requires forall q :: q in sys.calls ==> (q in sys'.requests <==> q in sys.requests)
    requires forall q :: q in sys.calls && q in sys.requests ==> sys'.requests[q] == sys.requests[q]
    ensures CallsAreSound(sys') && GiversAreCalled(sys')
  {
    forall q | q in sys'.calls
      ensures CallIsSound(sys', q)
    {
      assert CallIsSound(sys, q);
    }
    forall u
      ensures |Balance.Givers(sys'.db.txs, u)| == |Callers(sys'.calls, sys'.requests, u)|
    {
      SameCallers(sys.calls, sys.requests, sys'.requests, u);
    }
  }

  lemma SameCallers(calls: map<RequestId, TxId>, requests: map<RequestId, Lifecycle.Request>,
                    requests': map<RequestId, Lifecycle.Request>, u: User)
    requires forall q :: q in calls ==> (q in requests' <==> q in requests)
    requires forall q :: q in calls && q in requests ==> requests'[q] == requests[q]
    ensures Callers(calls, requests', u) == Callers(calls, requests, u)
  {
    forall q | q in calls
      ensures q in Callers(calls, requests', u) <==> q in Callers(calls, requests, u)
    {
    }
  }

  lemma AsideKeeps(sys: System, s: Step)
    requires Inv(sys) && Enabled(sys, s) && Disciplined(sys, s) && s.Aside?
    ensures Projects(sys, s) && Inv(Next(sys, s))
  {
    Lifecycle.NextInv(sys.Shop(), s.step);
    RowsStay(sys.Shop(), s.step);
    AsideCalls(sys, s);
  }

  lemma RowsStay(w: Lifecycle.Shop, s: Lifecycle.Step)
    requires Lifecycle.Enabled(w, s) && IsAside(s)
    ensures Lifecycle.Next(w, s).rows == w.rows && Lifecycle.Next(w, s).caps == w.caps
  {
  }

  lemma NextKeeps(sys: System, s: Step)
    requires Inv(sys) && Enabled(sys, s) && Disciplined(sys, s)
    ensures Projects(sys, s) && Inv(Next(sys, s))
  {
    match s
    case BeginReserve(_, _, _) => BeginReserveKeeps(sys, s);
    case BeginGiveBack(_, _) => BeginGiveBackKeeps(sys, s);
    case Statement(_, _) => StatementKeeps(sys, s);
    case Commit(_) => CommitKeeps(sys, s);
    case Abort(_) => AbortKeeps(sys, s);
    case Aside(_) => AsideKeeps(sys, s);
  }

  // ---------------------------------------------------------------------------
  // Whole runs
  // ---------------------------------------------------------------------------

  ghost predicate DisciplinedRun(sys: System, steps: seq<Step>)
    decreases |steps|
  {
    steps == [] ||
    (Enabled(sys, steps[0]) && Disciplined(sys, steps[0]) && DisciplinedRun(Next(sys, steps[0]), steps[1..]))
  }

  ghost function After(sys: System, steps: seq<Step>): System
    requires DisciplinedRun(sys, steps)
    decreases |steps|
  {
    if steps == [] then sys else After(Next(sys, steps[0]), steps[1..])
  }

  /** The run as the shop sees it. */
  ghost function Trace(sys: System, steps: seq<Step>): seq<Lifecycle.Step>
    requires DisciplinedRun(sys, steps)
    decreases |steps|
  {
    if steps == [] then [] else Visible(sys, steps[0]) + Trace(Next(sys, steps[0]), steps[1..])
  }

  function Start(caps: Caps): System {
    System(Transactions.Start(Rows(0, map[]), caps), map[], map[], {}, map[], map[])
  }

  lemma {:induction false} RunProjects(sys: System, steps: seq<Step>)
    requires Inv(sys) && DisciplinedRun(sys, steps)
    ensures Inv(After(sys, steps))
    ensures Lifecycle.DisciplinedRun(sys.Shop(), Trace(sys, steps)) && Lifecycle.Run(sys.Shop(), Trace(sys, steps))
    ensures Lifecycle.After(sys.Shop(), Trace(sys, steps)) == After(sys, steps).Shop()
    decreases |steps|
  {
    if steps != [] {
      var s, seen := steps[0], Visible(sys, steps[0]);
      NextKeeps(sys, s);
      RunProjects(Next(sys, s), steps[1..]);
      var rest := Trace(Next(sys, s), steps[1..]);
      if seen == [] {
        assert seen + rest == rest;
      } else {
        assert (seen + rest)[0] == seen[0] && (seen + rest)[1..] == rest;
      }
    }
  }

  lemma StartInv(caps: Caps)
    requires Lifecycle.CapsAllowNone(caps)
    ensures Inv(Start(caps))
  {
    var sys := Start(caps);
    forall u
      ensures Lifecycle.Gap(sys.Shop(), u) == 0
      ensures Balance.Givers(sys.db.txs, u) == {} && Callers(sys.calls, sys.requests, u) == {}
    {
    }
  }

  /** Whatever the interleaving of statements and whichever transactions abort, a disciplined run
      of the system is a disciplined run of the shop in which each call is one step. */
  lemma CallsActAsSteps(caps: Caps, steps: seq<Step>)
    requires Lifecycle.CapsAllowNone(caps) && DisciplinedRun(Start(caps), steps)
    ensures var shop, seen := Lifecycle.Start(caps), Trace(Start(caps), steps);
      Lifecycle.DisciplinedRun(shop, seen) && Lifecycle.Run(shop, seen) &&
      Lifecycle.After(shop, seen) == After(Start(caps), steps).Shop()
  {
    StartInv(caps);
    RunProjects(Start(caps), steps);
  }

  /** So at every point between two statements the committed counters cover the orders that hold
      the coupon and the requests in flight, and are in step. */
  lemma CountsCoverOrders(caps: Caps, steps: seq<Step>, u: User)
    requires Lifecycle.CapsAllowNone(caps) && DisciplinedRun(Start(caps), steps)
    ensures var sys := After(Start(caps), steps);
      var held := |Lifecycle.Holding(sys.orders, u)| + |Lifecycle.Owing(sys.requests, u)|;
      && Count(sys.db.rows.users, u) >= held
      && (Count(sys.db.rows.users, u) == held <==> Count(sys.leaked, u) == 0)
      && sys.db.rows.used == Sum(sys.db.rows.users) && Within(sys.db.rows, caps)
  {
    CallsActAsSteps(caps, steps);
    Lifecycle.CountsCoverOrders(caps, Trace(Start(caps), steps), u);
    StartInv(caps);
    RunProjects(Start(caps), steps);
    CapsStay(Start(caps), steps);
  }

  lemma {:induction false} CapsStay(sys: System, steps: seq<Step>)
    requires DisciplinedRun(sys, steps)
    ensures After(sys, steps).db.caps == sys.db.caps
    decreases |steps|
  {
    if steps != [] {
      CapsStay(Next(sys, steps[0]), steps[1..]);
    }
  }
}
