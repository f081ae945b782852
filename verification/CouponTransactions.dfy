/** Coupon transactions statement by statement
    (internal/modules/coupon/infrastructure/repository.go:98-198).

    Each transaction runs its statements one at a time between those of the others, at the
    read-committed level: a statement reads the committed rows, the row it writes stays
    locked until the transaction ends, and its writes become visible at the commit only.
    Any unfinished transaction may be aborted: a failed statement, a lost connection, or
    the database breaking a deadlock. */
module CouponTransactions {
  import opened Prelude
  import opened CouponCounters

  /** How far a transaction has got, with the values it has written but not committed. */
  datatype Tx =
    | Redeeming(u: User)
    | HoldsCoupon(u: User)
    | UserCounted(u: User, mine: int)
    | Ready(u: User, mine: int, all: int)
    | GivingBack(u: User)
    | UserGivenBack(u: User, given: Option<int>)
    | BothGivenBack(u: User, given: Option<int>, total: Option<int>)
    | Finished(ok: bool)
  {
    predicate LocksCoupon() {
      HoldsCoupon? || UserCounted? || Ready? || (BothGivenBack? && total.Some?)
    }

    predicate LocksUser(v: User) {
      !Finished? && u == v &&
      (UserCounted? || Ready? || ((UserGivenBack? || BothGivenBack?) && given.Some?))
    }
  }

  /** A committed transaction; a give-back records which of its statements found a row. */
  datatype Commit = Use(u: User) | GiveBack(u: User, user: bool, coupon: bool)

  datatype Db = Db(rows: Rows, caps: Caps, txs: map<TxId, Tx>, commits: seq<Commit>)
  {
    ghost predicate CouponFree() {
      forall t :: t in txs ==> !txs[t].LocksCoupon()
    }

    ghost predicate UserFree(u: User) {
      forall t :: t in txs ==> !txs[t].LocksUser(u)
    }

    function Set(t: TxId, x: Tx): Db {
      this.(txs := txs[t := x])
    }
  }

  datatype Step =
    | BeginRedeem(t: TxId, u: User)
    | SelectForUpdate(t: TxId, open: bool)
    | UpsertUser(t: TxId)
    | BumpCoupon(t: TxId)
    | BeginGiveBack(t: TxId, u: User)
    | LowerUser(t: TxId)
    | LowerCoupon(t: TxId)
    | CommitTx(t: TxId)
    | Abort(t: TxId)

  /** A statement waits for the lock of the row it is about to write. */
  ghost predicate Enabled(db: Db, s: Step) {
    match s
    case BeginRedeem(t, _) => t !in db.txs
    case BeginGiveBack(t, _) => t !in db.txs
    case SelectForUpdate(t, open) =>
      t in db.txs && db.txs[t].Redeeming? && (open && Below(db.rows.used, db.caps.maxUses) ==> db.CouponFree())
    case UpsertUser(t) => t in db.txs && db.txs[t].HoldsCoupon? && db.UserFree(db.txs[t].u)
    case BumpCoupon(t) => t in db.txs && db.txs[t].UserCounted?
    case LowerUser(t) =>
      t in db.txs && db.txs[t].GivingBack? && (Count(db.rows.users, db.txs[t].u) > 0 ==> db.UserFree(db.txs[t].u))
    case LowerCoupon(t) =>
      t in db.txs && db.txs[t].UserGivenBack? && (db.rows.used > 0 ==> db.CouponFree())
    case CommitTx(t) => t in db.txs && (db.txs[t].Ready? || db.txs[t].BothGivenBack?)
    case Abort(t) => t in db.txs && !db.txs[t].Finished?
  }

  function Next(db: Db, s: Step): Db
    requires Enabled(db, s)
  {
    match s
    case BeginRedeem(t, u) => db.Set(t, Redeeming(u))
    case BeginGiveBack(t, u) => db.Set(t, GivingBack(u))
    case SelectForUpdate(t, open) =>
      db.Set(t, if open && Below(db.rows.used, db.caps.maxUses) then HoldsCoupon(db.txs[t].u) else Finished(false))
    case UpsertUser(t) =>
      var u := db.txs[t].u;
      db.Set(t, if UpsertMatches(db.rows, db.caps, u) then UserCounted(u, Count(db.rows.users, u) + 1) else Finished(false))
    case BumpCoupon(t) =>
      var x := db.txs[t];
      db.Set(t, if Below(db.rows.used, db.caps.maxUses) then Ready(x.u, x.mine, db.rows.used + 1) else Finished(false))
    case LowerUser(t) =>
      var u := db.txs[t].u;
      var n := Count(db.rows.users, u);
      db.Set(t, UserGivenBack(u, if n > 0 then Some(n - 1) else None))
    case LowerCoupon(t) =>
      var x := db.txs[t];
      db.Set(t, BothGivenBack(x.u, x.given, if db.rows.used > 0 then Some(db.rows.used - 1) else None))
    case CommitTx(t) =>
      var x := db.txs[t];
      if x.Ready? then
        db.Set(t, Finished(true)).(rows := Rows(x.all, db.rows.users[x.u := x.mine]),
                                   commits := db.commits + [Use(x.u)])
      else
        db.Set(t, Finished(true)).(
          rows := Rows(if x.total.Some? then x.total.value else db.rows.used,
                       if x.given.Some? then db.rows.users[x.u := x.given.value] else db.rows.users),
          commits := db.commits + [GiveBack(x.u, x.given.Some?, x.total.Some?)])
    case Abort(t) => db.Set(t, Finished(false))
  }

  // ---------------------------------------------------------------------------
  // What every step keeps
  // ---------------------------------------------------------------------------

  ghost predicate Locks(db: Db) {
    && (forall t, v :: t in db.txs && v in db.txs && db.txs[t].LocksCoupon() && db.txs[v].LocksCoupon() ==> t == v)
    && (forall t, v, u :: t in db.txs && v in db.txs && db.txs[t].LocksUser(u) && db.txs[v].LocksUser(u) ==> t == v)
  }

  /** Uncommitted values are the committed ones moved by one, and were checked against the
      very counters they will replace. */
  ghost predicate Pending(rows: Rows, caps: Caps, x: Tx) {
    match x
    case HoldsCoupon(_) => Below(rows.used, caps.maxUses)
    case UserCounted(u, mine) =>
      Below(rows.used, caps.maxUses) && UpsertMatches(rows, caps, u) && mine == Count(rows.users, u) + 1
    case Ready(u, mine, all) =>
      && Below(rows.used, caps.maxUses) && UpsertMatches(rows, caps, u)
      && mine == Count(rows.users, u) + 1 && all == rows.used + 1
    case UserGivenBack(u, given) => given.Some? ==> given.value == Count(rows.users, u) - 1 >= 0
    case BothGivenBack(u, given, total) =>
      && (given.Some? ==> given.value == Count(rows.users, u) - 1 >= 0)
      && (total.Some? ==> total.value == rows.used - 1 >= 0)
    case _ => true
  }

  ghost predicate Inv(db: Db) {
    && Locks(db)
    && (forall t :: t in db.txs ==> Pending(db.rows, db.caps, db.txs[t]))
    && Within(db.rows, db.caps)
  }

  /** A transaction may move on when it takes only locks that are free. */
  lemma LocksAfterMove(db: Db, t: TxId, x: Tx, db': Db)
    requires Locks(db) && db'.txs == db.txs[t := x]
    requires x.LocksCoupon() ==> db.CouponFree() || (t in db.txs && db.txs[t].LocksCoupon())
    requires forall u :: x.LocksUser(u) ==> db.UserFree(u) || (t in db.txs && db.txs[t].LocksUser(u))
    ensures Locks(db')
  {
  }

  lemma NextLocks(db: Db, s: Step)
    requires Inv(db) && Enabled(db, s)
    ensures Locks(Next(db, s))
  {
    LocksAfterMove(db, s.t, Next(db, s).txs[s.t], Next(db, s));
  }

  lemma NextPending(db: Db, s: Step, t: TxId)
    requires Inv(db) && Enabled(db, s) && t in Next(db, s).txs
    ensures Pending(Next(db, s).rows, db.caps, Next(db, s).txs[t])
  {
    if s.CommitTx? && t != s.t {
      var x, y := db.txs[s.t], db.txs[t];
      assert !(x.LocksCoupon() && y.LocksCoupon());
      assert !y.Finished? ==> !(x.LocksUser(y.u) && y.LocksUser(y.u));
    }
  }

  lemma NextInv(db: Db, s: Step)
    requires Inv(db) && Enabled(db, s)
    ensures Inv(Next(db, s))
  {
    NextLocks(db, s);
    forall t | t in Next(db, s).txs
      ensures Pending(Next(db, s).rows, db.caps, Next(db, s).txs[t])
    {
      NextPending(db, s, t);
    }
  }

  /** A redemption that commits is one atomic redemption of the rows as they are then, and
      that redemption is accepted. */
  lemma CommittedRedemptionIsAtomic(db: Db, t: TxId)
    requires Inv(db) && t in db.txs && db.txs[t].Ready?
    ensures (Next(db, CommitTx(t)).rows, true) == Redeem(db.rows, db.caps, db.txs[t].u, true)
  {
  }

  /** A give-back that commits is one atomic give-back of the rows as they are then, unless
      one of its statements found nothing to lower and something is there by now. */
  lemma CommittedGiveBackIsAtomic(db: Db, t: TxId)
    requires Inv(db) && t in db.txs && db.txs[t].BothGivenBack?
    ensures var x := db.txs[t];
      Next(db, CommitTx(t)).rows == Decrement(db.rows, x.u) <==>
      (x.given.Some? || Count(db.rows.users, x.u) == 0) && (x.total.Some? || db.rows.used == 0)
  {
  }

  /** The global counter stays the sum of the per-user ones exactly when a give-back's two
      statements both lowered a row, or neither did. */
  lemma CommitKeepsBalance(db: Db, t: TxId)
    requires Inv(db) && Balanced(db.rows) && Enabled(db, CommitTx(t))
    ensures Balanced(Next(db, CommitTx(t)).rows) <==>
      db.txs[t].Ready? || (db.txs[t].given.Some? <==> db.txs[t].total.Some?)
  {
    var x := db.txs[t];
    SumUpdate(db.rows.users, x.u, Count(db.rows.users, x.u) + 1);
    SumUpdate(db.rows.users, x.u, Count(db.rows.users, x.u) - 1);
  }

  // ---------------------------------------------------------------------------
  // Whole runs
  // ---------------------------------------------------------------------------

  ghost predicate Run(db: Db, steps: seq<Step>)
    decreases |steps|
  {
    steps == [] || (Enabled(db, steps[0]) && Run(Next(db, steps[0]), steps[1..]))
  }

  ghost function After(db: Db, steps: seq<Step>): (db': Db)
    requires Run(db, steps)
    ensures db'.caps == db.caps && db.commits <= db'.commits
    decreases |steps|
  {
    if steps == [] then db else After(Next(db, steps[0]), steps[1..])
  }

  function Start(rows: Rows, caps: Caps): Db {
    Db(rows, caps, map[], [])
  }

  /** What one committed transaction did to the rows. */
  function Effect(rows: Rows, caps: Caps, c: Commit): Rows {
    match c
    case Use(u) => Redeem(rows, caps, u, true).0
    case GiveBack(u, user, coupon) =>
      Rows(if coupon then rows.used - 1 else rows.used,
           if user then rows.users[u := Count(rows.users, u) - 1] else rows.users)
  }

  function Replay(rows: Rows, caps: Caps, cs: seq<Commit>): Rows {
    if cs == [] then rows else Effect(Replay(rows, caps, cs[..|cs| - 1]), caps, cs[|cs| - 1])
  }

  lemma {:induction false} RunKeeps(db: Db, steps: seq<Step>, rows: Rows)
    requires Inv(db) && Run(db, steps) && db.rows == Replay(rows, db.caps, db.commits)
    ensures Inv(After(db, steps))
    ensures After(db, steps).rows == Replay(rows, db.caps, After(db, steps).commits)
    decreases |steps|
  {
    if steps != [] {
      NextInv(db, steps[0]);
      NextReplays(db, steps[0], rows);
      RunKeeps(Next(db, steps[0]), steps[1..], rows);
    }
  }

  lemma NextReplays(db: Db, s: Step, rows: Rows)
    requires Inv(db) && Enabled(db, s) && db.rows == Replay(rows, db.caps, db.commits)
    ensures Next(db, s).caps == db.caps
    ensures Next(db, s).rows == Replay(rows, db.caps, Next(db, s).commits)
  {
    var db' := Next(db, s);
    if s.CommitTx? {
      assert db'.commits[..|db'.commits| - 1] == db.commits;
    }
  }

  /** Whatever the interleaving and whichever transactions abort: the limits hold, and the
      counters are those of the committed transactions run one after another in the order
      of their commits. Transactions that answered false, failed or are still open have
      left no trace. */
  lemma EveryRunIsSerial(rows: Rows, caps: Caps, steps: seq<Step>)
    requires Within(rows, caps) && Run(Start(rows, caps), steps)
    ensures var db := After(Start(rows, caps), steps);
      Within(db.rows, caps) && db.rows == Replay(rows, caps, db.commits)
  {
    RunKeeps(Start(rows, caps), steps, rows);
  }

  predicate PastItsLock(txs: map<TxId, Tx>, t: TxId) {
    t in txs && (txs[t].HoldsCoupon? || txs[t].UserCounted? || txs[t].Ready?)
  }

  lemma {:induction false} LockedWhenOpen(db: Db, steps: seq<Step>, t: TxId)
    requires Run(db, steps) && PastItsLock(After(db, steps).txs, t)
    ensures PastItsLock(db.txs, t) || SelectForUpdate(t, true) in steps
    decreases |steps|
  {
    if steps != [] {
      LockedWhenOpen(Next(db, steps[0]), steps[1..], t);
    }
  }

  /** No run leads a redemption to its commit unless its first statement found the coupon active
      and inside its window. */
  lemma OnlyOpenCouponsAreRedeemed(rows: Rows, caps: Caps, steps: seq<Step>, t: TxId)
    requires Run(Start(rows, caps), steps) && t in After(Start(rows, caps), steps).txs
    requires After(Start(rows, caps), steps).txs[t].Ready?
    ensures SelectForUpdate(t, true) in steps
  {
    LockedWhenOpen(Start(rows, caps), steps, t);
  }

  /** The transactions whose caller has been told that they succeeded. */
  function Succeeded(db: Db): set<TxId> {
    set t | t in db.txs && db.txs[t] == Finished(true)
  }

  lemma NextSucceeded(db: Db, s: Step)
    requires Enabled(db, s)
    ensures |Succeeded(Next(db, s))| - |Succeeded(db)| == |Next(db, s).commits| - |db.commits|
  {
    var db' := Next(db, s);
    OneMoves(db, s);
    if s.CommitTx? {
      assert s.t !in Succeeded(db) && s.t in Succeeded(db');
      assert Succeeded(db') == Succeeded(db) + {s.t};
    } else {
      assert s.t !in Succeeded(db) && s.t !in Succeeded(db');
      assert Succeeded(db') == Succeeded(db);
    }
  }

  /** A step moves one transaction, which has not finished. */
  lemma OneMoves(db: Db, s: Step)
    requires Enabled(db, s)
    ensures s.t in db.txs ==> !db.txs[s.t].Finished?
    ensures Next(db, s).txs == db.txs[s.t := Next(db, s).txs[s.t]]
    ensures |Next(db, s).commits| == |db.commits| + if s.CommitTx? then 1 else 0
    ensures Next(db, s).txs[s.t] == Finished(true) <==> s.CommitTx?
  {
  }

  /** A caller is told that its transaction succeeded exactly when it has committed, and once. */
  lemma {:induction false} SuccessesAreCommits(db: Db, steps: seq<Step>)
    requires Run(db, steps) && |Succeeded(db)| == |db.commits|
    ensures |Succeeded(After(db, steps))| == |After(db, steps).commits|
    decreases |steps|
  {
    if steps != [] {
      NextSucceeded(db, steps[0]);
      SuccessesAreCommits(Next(db, steps[0]), steps[1..]);
    }
  }

  /** One user's redemptions among the commits, less the give-backs that found a row. */
  function Net(cs: seq<Commit>, u: User): int {
    if cs == [] then 0 else
      Net(cs[..|cs| - 1], u) +
      match cs[|cs| - 1]
      case Use(v) => if v == u then 1 else 0
      case GiveBack(v, user, _) => if v == u && user then -1 else 0
  }

  function NetAll(cs: seq<Commit>): int {
    if cs == [] then 0 else
      NetAll(cs[..|cs| - 1]) +
      match cs[|cs| - 1]
      case Use(_) => 1
      case GiveBack(_, _, coupon) => if coupon then -1 else 0
  }

  /** Every prefix of the commits accepts its next redemption. */
  ghost predicate AllAccepted(rows: Rows, caps: Caps, cs: seq<Commit>) {
    forall i :: 0 <= i < |cs| && cs[i].Use? ==> Redeem(Replay(rows, caps, cs[..i]), caps, cs[i].u, true).1
  }

  lemma CommitAccepts(db: Db, t: TxId, rows: Rows)
    requires Inv(db) && Enabled(db, CommitTx(t)) && db.rows == Replay(rows, db.caps, db.commits)
    requires AllAccepted(rows, db.caps, db.commits)
    ensures AllAccepted(rows, db.caps, Next(db, CommitTx(t)).commits)
  {
    var cs := Next(db, CommitTx(t)).commits;
    forall i | 0 <= i < |cs| && cs[i].Use?
      ensures Redeem(Replay(rows, db.caps, cs[..i]), db.caps, cs[i].u, true).1
    {
      if i < |db.commits| {
        assert cs[..i] == db.commits[..i];
      } else {
        assert cs[..i] == db.commits;
        CommittedRedemptionIsAtomic(db, t);
      }
    }
  }

  lemma {:induction false} RunAccepts(db: Db, steps: seq<Step>, rows: Rows)
    requires Inv(db) && Run(db, steps) && db.rows == Replay(rows, db.caps, db.commits)
    requires AllAccepted(rows, db.caps, db.commits)
    ensures AllAccepted(rows, db.caps, After(db, steps).commits)
    decreases |steps|
  {
    if steps != [] {
      NextAccepts(db, steps[0], rows);
      NextReplays(db, steps[0], rows);
      NextInv(db, steps[0]);
      RunAccepts(Next(db, steps[0]), steps[1..], rows);
    }
  }

  lemma NextAccepts(db: Db, s: Step, rows: Rows)
    requires Inv(db) && Enabled(db, s) && db.rows == Replay(rows, db.caps, db.commits)
    requires AllAccepted(rows, db.caps, db.commits)
    ensures AllAccepted(rows, db.caps, Next(db, s).commits)
  {
    if s.CommitTx? {
      CommitAccepts(db, s.t, rows);
    }
  }

  lemma {:induction false} ReplayCounts(rows: Rows, caps: Caps, cs: seq<Commit>, u: User)
    requires AllAccepted(rows, caps, cs)
    ensures Replay(rows, caps, cs).used == rows.used + NetAll(cs)
    ensures Count(Replay(rows, caps, cs).users, u) == Count(rows.users, u) + Net(cs, u)
    decreases |cs|
  {
    if cs != [] {
      var front := cs[..|cs| - 1];
      assert forall i :: 0 <= i < |front| ==> front[..i] == cs[..i];
      ReplayCounts(rows, caps, front, u);
    }
  }

  /** Conservation: each counter is where it started, plus one for every redemption that
      answered true, minus one for every give-back that lowered it. */
  lemma CountersAreConserved(rows: Rows, caps: Caps, steps: seq<Step>, u: User)
    requires Within(rows, caps) && Run(Start(rows, caps), steps)
    ensures var db := After(Start(rows, caps), steps);
      && db.rows.used == rows.used + NetAll(db.commits)
      && Count(db.rows.users, u) == Count(rows.users, u) + Net(db.commits, u)
  {
    RunKeeps(Start(rows, caps), steps, rows);
    RunAccepts(Start(rows, caps), steps, rows);
    ReplayCounts(rows, caps, After(Start(rows, caps), steps).commits, u);
  }

  // ---------------------------------------------------------------------------
  // What interleaving does allow
  // ---------------------------------------------------------------------------

  lemma {:induction false} Extend(start: Db, steps: seq<Step>, db: Db, s: Step) returns (longer: seq<Step>, db': Db)
    requires Run(start, steps) && After(start, steps) == db && Enabled(db, s)
    ensures longer == steps + [s] && db' == Next(db, s)
    ensures Run(start, longer) && After(start, longer) == db'
    decreases |steps|
  {
    longer, db' := steps + [s], Next(db, s);
    if steps == [] {
      assert longer[1..] == [];
    } else {
      var rest, last := Extend(Next(start, steps[0]), steps[1..], db, s);
      assert longer[1..] == rest;
    }
  }

  const UNLIMITED: Db := Start(Rows(0, map[]), Caps(None, None))

  lemma OneUseReady() returns (steps: seq<Step>, db: Db)
    ensures Run(UNLIMITED, steps) && After(UNLIMITED, steps) == db
    ensures db == UNLIMITED.(txs := map[0 := Ready("ann", 1, 1)])
  {
    steps, db := Extend(UNLIMITED, [], UNLIMITED, BeginRedeem(0, "ann"));
    steps, db := Extend(UNLIMITED, steps, db, SelectForUpdate(0, true));
    steps, db := Extend(UNLIMITED, steps, db, UpsertUser(0));
    steps, db := Extend(UNLIMITED, steps, db, BumpCoupon(0));
  }

  lemma GiveBackMissesUncommittedUse() returns (steps: seq<Step>, db: Db)
    ensures Run(UNLIMITED, steps) && After(UNLIMITED, steps) == db
    ensures db == UNLIMITED.(txs := map[0 := Ready("ann", 1, 1), 1 := UserGivenBack("ann", None)])
  {
    steps, db := OneUseReady();
    steps, db := Extend(UNLIMITED, steps, db, BeginGiveBack(1, "ann"));
    steps, db := Extend(UNLIMITED, steps, db, LowerUser(1));
  }

  /** A give-back that runs while a redemption of the same user is still uncommitted finds
      no user row but, once that redemption has committed, a coupon row: the two counters
      part although each transaction ran to its end. */
  lemma CountersCanPart() returns (steps: seq<Step>)
    ensures Run(UNLIMITED, steps) && After(UNLIMITED, steps).rows == Rows(0, map["ann" := 1])
  {
    var db;
    steps, db := GiveBackMissesUncommittedUse();
    steps, db := Extend(UNLIMITED, steps, db, CommitTx(0));
    assert db.rows == Rows(1, map["ann" := 1]);
    steps, db := Extend(UNLIMITED, steps, db, LowerCoupon(1));
    steps, db := Extend(UNLIMITED, steps, db, CommitTx(1));
  }

  // ---------------------------------------------------------------------------
  // Deadlocks
  // ---------------------------------------------------------------------------

  /** The next statement of t needs the lock of a row that v holds. */
  predicate WaitsFor(db: Db, t: TxId, v: TxId) {
    t in db.txs && v in db.txs &&
    match db.txs[t]
    case Redeeming(_) => Below(db.rows.used, db.caps.maxUses) && db.txs[v].LocksCoupon()
    case HoldsCoupon(u) => db.txs[v].LocksUser(u)
    case GivingBack(u) => Count(db.rows.users, u) > 0 && db.txs[v].LocksUser(u)
    case UserGivenBack(_, _) => db.rows.used > 0 && db.txs[v].LocksCoupon()
    case _ => false
  }

  /** The next statement of an unfinished transaction, on a coupon that is open. */
  function Statement(t: TxId, x: Tx): Step {
    match x
    case Redeeming(_) => SelectForUpdate(t, true)
    case HoldsCoupon(_) => UpsertUser(t)
    case UserCounted(_, _) => BumpCoupon(t)
    case GivingBack(_) => LowerUser(t)
    case UserGivenBack(_, _) => LowerCoupon(t)
    case _ => CommitTx(t)
  }

  /** Waiting is what keeps a transaction from its next statement, and all that does. */
  lemma BlockedIffWaiting(db: Db, t: TxId)
    requires t in db.txs && !db.txs[t].Finished?
    ensures Enabled(db, Statement(t, db.txs[t])) <==> forall v :: !WaitsFor(db, t, v)
  {
    var x := db.txs[t];
    if !Enabled(db, Statement(t, x)) {
      if x.Redeeming? || x.UserGivenBack? {
        var v :| v in db.txs && db.txs[v].LocksCoupon();
        assert WaitsFor(db, t, v);
      } else {
        var v :| v in db.txs && db.txs[v].LocksUser(x.u);
        assert WaitsFor(db, t, v);
      }
    }
  }

  /** Transactions that wait for each other, all of them. */
  ghost predicate Deadlocked(db: Db, ts: set<TxId>) {
    ts != {} && forall t {:trigger WaitsWithin(db, ts, t)} :: t in ts ==> WaitsWithin(db, ts, t)
  }

  ghost predicate WaitsWithin(db: Db, ts: set<TxId>, t: TxId) {
    exists v :: v in ts && WaitsFor(db, t, v)
  }

  /** A redemption that holds the coupon's row, and a give-back of the same user that holds
      the user's row and has yet to lower the coupon. */
  predicate Crossed(db: Db, t: TxId, v: TxId) {
    && t in db.txs && v in db.txs && db.txs[t].HoldsCoupon?
    && db.txs[v].UserGivenBack? && db.txs[v].given.Some? && db.txs[t].u == db.txs[v].u
    && db.rows.used > 0
  }

  /** Whoever is waited for while waiting holds one row and wants the other. */
  lemma HolderThatWaits(db: Db, t: TxId, v: TxId, y: TxId)
    requires WaitsFor(db, t, v) && WaitsFor(db, v, y)
    ensures db.txs[v].HoldsCoupon? || (db.txs[v].UserGivenBack? && db.txs[v].given.Some?)
  {
  }

  lemma ChainIsCrossed(db: Db, t: TxId, v: TxId, y: TxId, z: TxId, z': TxId)
    requires WaitsFor(db, t, v) && WaitsFor(db, v, y) && WaitsFor(db, y, z) && WaitsFor(db, z, z')
    ensures Crossed(db, v, y) || Crossed(db, y, z)
  {
    HolderThatWaits(db, t, v, y);
    HolderThatWaits(db, v, y, z);
    HolderThatWaits(db, y, z, z');
  }

  lemma WaitedFor(db: Db, ts: set<TxId>, t: TxId) returns (v: TxId)
    requires Deadlocked(db, ts) && t in ts
    ensures v in ts && WaitsFor(db, t, v)
  {
    assert WaitsWithin(db, ts, t);
    v :| v in ts && WaitsFor(db, t, v);
  }

  lemma DeadlockIsCrossed(db: Db, ts: set<TxId>)
    requires Deadlocked(db, ts)
    ensures exists t, v :: Crossed(db, t, v)
  {
    var t := SomeMember(ts);
    var v := WaitedFor(db, ts, t);
    var y := WaitedFor(db, ts, v);
    var z := WaitedFor(db, ts, y);
    var z' := WaitedFor(db, ts, z);
    ChainIsCrossed(db, t, v, y, z, z');
  }

  /** The two transactions lock the rows in opposite orders, and that is the only way they can
      deadlock: some transactions wait for each other exactly when two are crossed. */
  lemma DeadlockIffCrossed(db: Db)
    ensures (exists ts :: Deadlocked(db, ts)) <==> exists t, v :: Crossed(db, t, v)
  {
    if ts :| Deadlocked(db, ts) {
      DeadlockIsCrossed(db, ts);
    }
    if t, v :| Crossed(db, t, v) {
      assert WaitsFor(db, t, v) && WaitsFor(db, v, t);
      assert Deadlocked(db, {t, v});
    }
  }

  /** When nobody can take another statement although somebody is not finished, two are
      crossed; so only an abort helps. */
  lemma StuckMeansCrossed(db: Db, t: TxId)
    requires t in db.txs && !db.txs[t].Finished?
    requires forall v :: v in db.txs && !db.txs[v].Finished? ==> !Enabled(db, Statement(v, db.txs[v]))
    ensures exists x, y :: Crossed(db, x, y)
  {
    var all := set v | v in db.txs && !db.txs[v].Finished?;
    forall v | v in all
      ensures WaitsWithin(db, all, v)
    {
      BlockedIffWaiting(db, v);
      var y :| WaitsFor(db, v, y);
      assert y in all;
    }
    assert t in all && Deadlocked(db, all);
    DeadlockIsCrossed(db, all);
  }

  lemma OneUseCommitted() returns (steps: seq<Step>, db: Db)
    ensures Run(UNLIMITED, steps) && After(UNLIMITED, steps) == db
    ensures db == UNLIMITED.(rows := Rows(1, map["ann" := 1]), txs := map[0 := Finished(true)], commits := [Use("ann")])
  {
    steps, db := OneUseReady();
    steps, db := Extend(UNLIMITED, steps, db, CommitTx(0));
  }

  lemma SecondUseHoldsCoupon() returns (steps: seq<Step>, db: Db)
    ensures Run(UNLIMITED, steps) && After(UNLIMITED, steps) == db
    ensures db == UNLIMITED.(rows := Rows(1, map["ann" := 1]), commits := [Use("ann")],
                             txs := map[0 := Finished(true), 1 := HoldsCoupon("ann")])
  {
    steps, db := OneUseCommitted();
    steps, db := Extend(UNLIMITED, steps, db, BeginRedeem(1, "ann"));
    steps, db := Extend(UNLIMITED, steps, db, SelectForUpdate(1, true));
  }

  /** It happens: one user uses the coupon again while an earlier use is given back. */
  lemma TransactionsCanCross() returns (steps: seq<Step>, db: Db)
    ensures Run(UNLIMITED, steps) && After(UNLIMITED, steps) == db && Crossed(db, 1, 2)
  {
    steps, db := SecondUseHoldsCoupon();
    steps, db := Extend(UNLIMITED, steps, db, BeginGiveBack(2, "ann"));
    assert db.txs[2] == GivingBack("ann") && db.UserFree("ann");
    steps, db := Extend(UNLIMITED, steps, db, LowerUser(2));
  }
}
