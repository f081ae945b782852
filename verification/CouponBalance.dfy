/** When the two counters of a coupon stay in step
    (internal/modules/coupon/infrastructure/repository.go:98-198).

    A give-back is disciplined when its user has, as it begins, more uses counted than
    unfinished give-backs: then there is a use for it. Runs whose give-backs are all disciplined
    keep the counters in step, whatever else they interleave and abort; one that is not can
    always be gone on from until they part. */
module CouponBalance {
  import opened Prelude
  import opened CouponCounters
  import opened CouponTransactions

  // ---------------------------------------------------------------------------
  // Unfinished give-backs
  // ---------------------------------------------------------------------------

  predicate Gives(x: Tx, u: User) {
    (x.GivingBack? || x.UserGivenBack? || x.BothGivenBack?) && x.u == u
  }

  function Givers(txs: map<TxId, Tx>, u: User): set<TxId> {
    set t | t in txs && Gives(txs[t], u)
  }

  /** What a caller can see before it starts a give-back. */
  predicate Disciplined(db: Db, s: Step) {
    s.BeginGiveBack? ==> Count(db.rows.users, s.u) > |Givers(db.txs, s.u)|
  }

  /** There is a use for every unfinished give-back. */
  ghost predicate Covered(db: Db) {
    forall u :: Count(db.rows.users, u) >= |Givers(db.txs, u)|
  }

  predicate Found(x: Tx) {
    (x.UserGivenBack? ==> x.given.Some?) && (x.BothGivenBack? ==> x.given.Some? && x.total.Some?)
  }

  /** Every statement of an unfinished give-back has found its row. */
  ghost predicate AllFound(db: Db) {
    forall t :: t in db.txs ==> Found(db.txs[t])
  }

  ghost predicate Sound(db: Db) {
    && Inv(db)
    && Balanced(db.rows)
    && Covered(db)
    && AllFound(db)
  }

  lemma GiversAfterMove(txs: map<TxId, Tx>, t: TxId, x: Tx, u: User)
    ensures |Givers(txs[t := x], u)| ==
      |Givers(txs, u)| + (if Gives(x, u) then 1 else 0) - (if t in txs && Gives(txs[t], u) then 1 else 0)
  {
    var before, after := Givers(txs, u), Givers(txs[t := x], u);
    if Gives(x, u) {
      assert after == before + {t};
    } else {
      assert after == before - {t};
    }
  }

  lemma CountedByAll(rows: Rows, caps: Caps, u: User)
    requires Within(rows, caps) && Balanced(rows)
    ensures rows.used >= Count(rows.users, u) >= 0
  {
    SumBounds(rows.users, u);
  }

  lemma NextCovered(db: Db, s: Step)
    requires Sound(db) && Enabled(db, s) && Disciplined(db, s)
    ensures Covered(Next(db, s))
  {
    forall u
      ensures Count(Next(db, s).rows.users, u) >= |Givers(Next(db, s).txs, u)|
    {
      GiversAfterMove(db.txs, s.t, Next(db, s).txs[s.t], u);
    }
  }

  lemma GiverIsCounted(db: Db, t: TxId)
    requires Sound(db) && t in db.txs && !db.txs[t].Finished? && Gives(db.txs[t], db.txs[t].u)
    ensures Count(db.rows.users, db.txs[t].u) > 0 && db.rows.used > 0
  {
    assert t in Givers(db.txs, db.txs[t].u);
    CountedByAll(db.rows, db.caps, db.txs[t].u);
  }

  lemma NextFound(db: Db, s: Step)
    requires Sound(db) && Enabled(db, s)
    ensures AllFound(Next(db, s))
  {
    if s.LowerUser? || s.LowerCoupon? {
      GiverIsCounted(db, s.t);
    }
  }

  lemma NextSound(db: Db, s: Step)
    requires Sound(db) && Enabled(db, s) && Disciplined(db, s)
    ensures Sound(Next(db, s))
  {
    NextInv(db, s);
    NextCovered(db, s);
    NextFound(db, s);
    if s.CommitTx? {
      CommitKeepsBalance(db, s.t);
    }
  }

  // ---------------------------------------------------------------------------
  // Disciplined runs
  // ---------------------------------------------------------------------------

  ghost predicate DisciplinedRun(db: Db, steps: seq<Step>)
    decreases |steps|
  {
    steps == [] ||
    (Enabled(db, steps[0]) && Disciplined(db, steps[0]) && DisciplinedRun(Next(db, steps[0]), steps[1..]))
  }

  lemma {:induction false} DisciplinedRunIsRun(db: Db, steps: seq<Step>)
    requires DisciplinedRun(db, steps)
    ensures Run(db, steps)
    decreases |steps|
  {
    if steps != [] {
      DisciplinedRunIsRun(Next(db, steps[0]), steps[1..]);
    }
  }

  /** The rows after whole operations, one after another. */
  function Whole(rows: Rows, caps: Caps, cs: seq<Commit>): Rows {
    if cs == [] then rows
    else
      var before, c := Whole(rows, caps, cs[..|cs| - 1]), cs[|cs| - 1];
      match c
      case Use(u) => Redeem(before, caps, u, true).0
      case GiveBack(u, _, _) => Decrement(before, u)
  }

  /** Both statements of every committed give-back lowered a row. */
  ghost predicate AllWhole(cs: seq<Commit>) {
    forall i :: 0 <= i < |cs| && cs[i].GiveBack? ==> cs[i].user && cs[i].coupon
  }

  lemma {:induction false} DisciplinedRunIsWhole(db: Db, steps: seq<Step>, rows: Rows)
    requires Sound(db) && DisciplinedRun(db, steps) && db.rows == Whole(rows, db.caps, db.commits)
    requires AllWhole(db.commits)
    ensures Run(db, steps) && Sound(After(db, steps))
    ensures After(db, steps).rows == Whole(rows, db.caps, After(db, steps).commits)
    ensures AllWhole(After(db, steps).commits)
    decreases |steps|
  {
    if steps != [] {
      var s := steps[0];
      NextSound(db, s);
      if s.CommitTx? {
        CommitIsWhole(db, s.t, rows);
      }
      DisciplinedRunIsWhole(Next(db, s), steps[1..], rows);
    }
  }

  lemma CommitIsWhole(db: Db, t: TxId, rows: Rows)
    requires Sound(db) && Enabled(db, CommitTx(t)) && db.rows == Whole(rows, db.caps, db.commits)
    ensures var db' := Next(db, CommitTx(t)); db'.rows == Whole(rows, db.caps, db'.commits)
  {
    var db' := Next(db, CommitTx(t));
    assert db'.commits[..|db'.commits| - 1] == db.commits;
    if db.txs[t].Ready? {
      CommittedRedemptionIsAtomic(db, t);
    } else {
      CommittedGiveBackIsAtomic(db, t);
    }
  }

  /** Over every disciplined run the counters are in step, every give-back finds both its rows,
      and the rows are those of whole redemptions and whole give-backs one after another. */
  lemma DisciplinedRunsStayInStep(rows: Rows, caps: Caps, steps: seq<Step>)
    requires Within(rows, caps) && Balanced(rows) && DisciplinedRun(Start(rows, caps), steps)
    ensures Run(Start(rows, caps), steps)
    ensures var db := After(Start(rows, caps), steps);
      Balanced(db.rows) && AllWhole(db.commits) && db.rows == Whole(rows, caps, db.commits)
  {
    var db := Start(rows, caps);
    forall u
      ensures Count(db.rows.users, u) >= |Givers(db.txs, u)|
    {
      assert Givers(db.txs, u) == {};
    }
    DisciplinedRunIsWhole(db, steps, rows);
  }

  // ---------------------------------------------------------------------------
  // The other way round
  // ---------------------------------------------------------------------------

  /** More give-backs of a user are under way than the user has uses. */
  ghost predicate Short(db: Db, u: User) {
    && Inv(db)
    && Balanced(db.rows)
    && AllFound(db)
    && |Givers(db.txs, u)| > Count(db.rows.users, u)
  }

  function Others(txs: map<TxId, Tx>, u: User): set<TxId> {
    set t | t in txs && !txs[t].Finished? && !Gives(txs[t], u)
  }

  function Fresh(txs: map<TxId, Tx>, u: User): set<TxId> {
    set t | t in txs && txs[t].GivingBack? && txs[t].u == u
  }

  function Halfway(txs: map<TxId, Tx>, u: User): set<TxId> {
    set t | t in txs && txs[t].UserGivenBack? && txs[t].u == u
  }

  /** A user could redeem the coupon, had nobody done so. */
  predicate Usable(caps: Caps) {
    Below(0, caps.maxUses) && Below(0, caps.maxPerUser)
  }

  ghost predicate StaysInStep(db: Db) {
    forall steps :: DisciplinedRun(db, steps) ==> Run(db, steps) && Balanced(After(db, steps).rows)
  }

  lemma StartedGiveBack(db: Db, t: TxId, u: User)
    requires Sound(db) && t !in db.txs && |Givers(db.txs, u)| >= Count(db.rows.users, u)
    ensures Short(Next(db, BeginGiveBack(t, u)), u)
  {
    NextInv(db, BeginGiveBack(t, u));
    GiversAfterMove(db.txs, t, GivingBack(u), u);
  }

  /** One step towards the end of the give-backs of a user. */
  lemma NextShort(db: Db, u: User, s: Step)
    requires Short(db, u) && Enabled(db, s)
    requires s.Abort? ==> !Gives(db.txs[s.t], u)
    requires s.LowerUser? || s.LowerCoupon? || s.CommitTx? || s.Abort?
    requires s.LowerUser? || s.LowerCoupon? || s.CommitTx? ==> Gives(db.txs[s.t], u) && Count(db.rows.users, u) > 0
    ensures Short(Next(db, s), u)
  {
    NextInv(db, s);
    GiversAfterMove(db.txs, s.t, Next(db, s).txs[s.t], u);
    CountedByAll(db.rows, db.caps, u);
    if s.CommitTx? {
      CommitKeepsBalance(db, s.t);
    }
  }

  lemma Prepend(db: Db, s: Step, rest: seq<Step>) returns (steps: seq<Step>)
    requires Enabled(db, s) && Disciplined(db, s) && DisciplinedRun(Next(db, s), rest)
    ensures DisciplinedRun(db, steps) && Run(db, steps) && Run(Next(db, s), rest)
    ensures After(db, steps) == After(Next(db, s), rest)
  {
    steps := [s] + rest;
    assert steps[0] == s && steps[1..] == rest;
    DisciplinedRunIsRun(Next(db, s), rest);
    assert Run(db, steps);
  }

  lemma {:induction false} Above(ids: set<TxId>) returns (r: TxId)
    ensures forall t :: t in ids ==> t < r
    decreases |ids|
  {
    if ids == {} {
      r := 0;
    } else {
      var t := SomeMember(ids);
      var rest := Above(ids - {t});
      r := Max(rest, t + 1);
      forall v | v in ids
        ensures v < r
      {
        assert v == t || v in ids - {t};
      }
    }
  }

  /** A give-back that has missed its user and now finds the coupon. */
  lemma PartsFrom(db: Db, t: TxId) returns (steps: seq<Step>)
    requires Inv(db) && Balanced(db.rows) && db.rows.used > 0 && db.CouponFree()
    requires t in db.txs && db.txs[t].UserGivenBack? && db.txs[t].given.None?
    ensures DisciplinedRun(db, steps) && Run(db, steps) && !Balanced(After(db, steps).rows)
  {
    var db1 := Next(db, LowerCoupon(t));
    NextInv(db, LowerCoupon(t));
    CommitKeepsBalance(db1, t);
    steps := Prepend(db1, CommitTx(t), []);
    steps := Prepend(db, LowerCoupon(t), steps);
  }

  lemma FinishUse(db: Db, t: TxId, r: TxId) returns (steps: seq<Step>)
    requires Inv(db) && Balanced(db.rows) && db.rows.used == 0
    requires t in db.txs && db.txs[t].UserGivenBack? && db.txs[t].given.None?
    requires r in db.txs && db.txs[r] == HoldsCoupon(db.txs[t].u) && Below(0, db.caps.maxPerUser)
    requires db.UserFree(db.txs[t].u) && Count(db.rows.users, db.txs[t].u) == 0
    ensures DisciplinedRun(db, steps) && Run(db, steps) && !Balanced(After(db, steps).rows)
  {
    var db1 := Next(db, UpsertUser(r));
    NextInv(db, UpsertUser(r));
    var db2 := Next(db1, BumpCoupon(r));
    NextInv(db1, BumpCoupon(r));
    var db3 := Next(db2, CommitTx(r));
    NextInv(db2, CommitTx(r));
    CommitKeepsBalance(db2, r);
    steps := PartsFrom(db3, t);
    steps := Prepend(db2, CommitTx(r), steps);
    steps := Prepend(db1, BumpCoupon(r), steps);
    steps := Prepend(db, UpsertUser(r), steps);
  }

  lemma UseThenParts(db: Db, t: TxId, r: TxId) returns (steps: seq<Step>)
    requires Inv(db) && Balanced(db.rows) && Usable(db.caps) && db.rows.used == 0 && db.CouponFree()
    requires t in db.txs && db.txs[t].UserGivenBack? && db.txs[t].given.None?
    requires r !in db.txs && db.UserFree(db.txs[t].u) && Count(db.rows.users, db.txs[t].u) == 0
    ensures DisciplinedRun(db, steps) && Run(db, steps) && !Balanced(After(db, steps).rows)
  {
    var u := db.txs[t].u;
    var db2 := Next(Next(db, BeginRedeem(r, u)), SelectForUpdate(r, true));
    NextInv(db, BeginRedeem(r, u));
    NextInv(Next(db, BeginRedeem(r, u)), SelectForUpdate(r, true));
    steps := FinishUse(db2, t, r);
    steps := Prepend(Next(db, BeginRedeem(r, u)), SelectForUpdate(r, true), steps);
    steps := Prepend(db, BeginRedeem(r, u), steps);
  }

  /** Only give-backs of u are unfinished, and none has begun. */
  ghost predicate AllFresh(db: Db, u: User) {
    forall t :: t in db.txs ==> db.txs[t].Finished? || (db.txs[t].GivingBack? && db.txs[t].u == u)
  }

  lemma LastGiveBackParts(db: Db, u: User) returns (steps: seq<Step>)
    requires Short(db, u) && Usable(db.caps) && AllFresh(db, u) && Count(db.rows.users, u) == 0
    ensures DisciplinedRun(db, steps) && Run(db, steps) && !Balanced(After(db, steps).rows)
  {
    var t := SomeMember(Givers(db.txs, u));
    var db1 := Next(db, LowerUser(t));
    NextInv(db, LowerUser(t));
    if db.rows.used > 0 {
      steps := PartsFrom(db1, t);
    } else {
      var r := Above(db1.txs.Keys);
      steps := UseThenParts(db1, t, r);
    }
    steps := Prepend(db, LowerUser(t), steps);
  }

  /** Nearer to the end of the give-backs of a user. */
  ghost predicate Nearer(db: Db, db': Db, u: User) {
    var n, n' := Count(db.rows.users, u), Count(db'.rows.users, u);
    || |Others(db'.txs, u)| < |Others(db.txs, u)|
    || (Others(db'.txs, u) == Others(db.txs, u) &&
        (n' < n || (n' == n && (|Fresh(db'.txs, u)| < |Fresh(db.txs, u)| ||
         (Fresh(db'.txs, u) == Fresh(db.txs, u) && |Halfway(db'.txs, u)| < |Halfway(db.txs, u)|)))))
  }

  ghost predicate Approaches(db: Db, u: User, s: Step) {
    && Enabled(db, s)
    && Disciplined(db, s)
    && Short(Next(db, s), u)
    && Nearer(db, Next(db, s), u)
  }

  lemma AbortApproaches(db: Db, u: User, t: TxId)
    requires Short(db, u) && t in Others(db.txs, u)
    ensures Approaches(db, u, Abort(t))
  {
    assert Others(Next(db, Abort(t)).txs, u) == Others(db.txs, u) - {t};
    NextShort(db, u, Abort(t));
  }

  lemma CommitApproaches(db: Db, u: User, t: TxId)
    requires Short(db, u) && t in db.txs && db.txs[t].BothGivenBack? && db.txs[t].u == u
    ensures Approaches(db, u, CommitTx(t))
  {
    assert Others(Next(db, CommitTx(t)).txs, u) == Others(db.txs, u);
    NextShort(db, u, CommitTx(t));
  }

  lemma LowerCouponApproaches(db: Db, u: User, t: TxId)
    requires Short(db, u) && db.CouponFree()
    requires t in db.txs && db.txs[t].UserGivenBack? && db.txs[t].u == u
    ensures Approaches(db, u, LowerCoupon(t))
  {
    var s := LowerCoupon(t);
    assert Others(Next(db, s).txs, u) == Others(db.txs, u);
    assert Fresh(Next(db, s).txs, u) == Fresh(db.txs, u);
    assert Halfway(Next(db, s).txs, u) == Halfway(db.txs, u) - {t};
    NextShort(db, u, s);
  }

  lemma LowerUserApproaches(db: Db, u: User, t: TxId)
    requires Short(db, u) && AllFresh(db, u) && Count(db.rows.users, u) > 0
    requires t in Givers(db.txs, u)
    ensures Approaches(db, u, LowerUser(t))
  {
    var s := LowerUser(t);
    assert Others(Next(db, s).txs, u) == Others(db.txs, u);
    assert Fresh(Next(db, s).txs, u) == Fresh(db.txs, u) - {t};
    NextShort(db, u, s);
  }

  lemma StepNearer(db: Db, u: User) returns (s: Step)
    requires Short(db, u) && !(AllFresh(db, u) && Count(db.rows.users, u) == 0)
    ensures Approaches(db, u, s)
  {
    if t :| t in Others(db.txs, u) {
      s := Abort(t);
      AbortApproaches(db, u, t);
    } else {
      OnlyGivers(db, u);
      if t :| t in db.txs && db.txs[t].BothGivenBack? {
        s := CommitTx(t);
        CommitApproaches(db, u, t);
      } else if t :| t in db.txs && db.txs[t].UserGivenBack? {
        s := LowerCoupon(t);
        LowerCouponApproaches(db, u, t);
      } else {
        assert AllFresh(db, u);
        CountedByAll(db.rows, db.caps, u);
        var t := SomeMember(Givers(db.txs, u));
        s := LowerUser(t);
        LowerUserApproaches(db, u, t);
      }
    }
  }

  lemma OnlyGivers(db: Db, u: User)
    requires forall t :: t !in Others(db.txs, u)
    ensures forall t :: t in db.txs ==> db.txs[t].Finished? || Gives(db.txs[t], u)
  {
    forall t | t in db.txs
      ensures db.txs[t].Finished? || Gives(db.txs[t], u)
    {
      assert t !in Others(db.txs, u);
    }
  }

  lemma {:induction false} ShortParts(db: Db, u: User) returns (steps: seq<Step>)
    requires Short(db, u) && Usable(db.caps)
    ensures DisciplinedRun(db, steps) && Run(db, steps) && !Balanced(After(db, steps).rows)
    decreases |Others(db.txs, u)|, Count(db.rows.users, u), |Fresh(db.txs, u)|, |Halfway(db.txs, u)|
  {
    if AllFresh(db, u) && Count(db.rows.users, u) == 0 {
      steps := LastGiveBackParts(db, u);
    } else {
      var s := StepNearer(db, u);
      steps := ShortParts(Next(db, s), u);
      steps := Prepend(db, s, steps);
    }
  }

  /** A give-back may begin, for all that can follow, exactly when its user has more uses
      counted than give-backs under way. */
  lemma WhenGiveBackIsSafe(db: Db, t: TxId, u: User)
    requires Sound(db) && t !in db.txs && Usable(db.caps)
    ensures StaysInStep(Next(db, BeginGiveBack(t, u))) <==> Count(db.rows.users, u) > |Givers(db.txs, u)|
  {
    var db' := Next(db, BeginGiveBack(t, u));
    if Count(db.rows.users, u) > |Givers(db.txs, u)| {
      NextSound(db, BeginGiveBack(t, u));
      forall steps | DisciplinedRun(db', steps)
        ensures Run(db', steps) && Balanced(After(db', steps).rows)
      {
        DisciplinedRunIsSound(db', steps);
      }
    } else {
      StartedGiveBack(db, t, u);
      var steps := ShortParts(db', u);
    }
  }

  lemma {:induction false} DisciplinedRunIsSound(db: Db, steps: seq<Step>)
    requires Sound(db) && DisciplinedRun(db, steps)
    ensures Run(db, steps) && Sound(After(db, steps))
    decreases |steps|
  {
    if steps != [] {
      NextSound(db, steps[0]);
      DisciplinedRunIsSound(Next(db, steps[0]), steps[1..]);
    }
  }
}
