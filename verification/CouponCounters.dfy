/** Redeeming a coupon and giving a redemption back
    (internal/modules/coupon/infrastructure/repository.go:92-198).

    Redeem and Decrement say what one transaction does when it runs alone; the class
    Repository has the two calls, statement by statement, with a failure at any of them.
    Transactions that interleave are in CouponTransactions. */
module CouponCounters {
  import opened Prelude
  import Orders

  type User = Orders.User
  type TxId = int

  /** A coupon's limits; None is SQL NULL. */
  datatype Caps = Caps(maxUses: Option<int>, maxPerUser: Option<int>)

  /** The committed rows of one coupon: coupons.used_count, and coupon_users. */
  datatype Rows = Rows(used: int, users: map<User, int>)

  predicate Below(n: int, cap: Option<int>) {
    cap.None? || n < cap.value
  }

  /** The per-user statement of a redemption: inserting a first row is not checked against
      the cap, updating an existing one is. */
  predicate UpsertMatches(rows: Rows, caps: Caps, u: User) {
    u !in rows.users || Below(rows.users[u], caps.maxPerUser)
  }

  function Bump(rows: Rows, u: User): Rows {
    Rows(rows.used + 1, rows.users[u := Count(rows.users, u) + 1])
  }

  /** A redemption run alone. open is the outcome of the row's other conditions: active
      and inside its validity window. */
  function Redeem(rows: Rows, caps: Caps, u: User, open: bool): (Rows, bool) {
    if open && Below(rows.used, caps.maxUses) && UpsertMatches(rows, caps, u)
    then (Bump(rows, u), true)
    else (rows, false)
  }

  /** A give-back run alone: each counter is lowered if it is positive. */
  function Decrement(rows: Rows, u: User): Rows {
    Rows(if rows.used > 0 then rows.used - 1 else rows.used,
         if Count(rows.users, u) > 0 then rows.users[u := rows.users[u] - 1] else rows.users)
  }

  // ---------------------------------------------------------------------------
  // What the limits promise, and what a redemption and its give-back amount to
  // ---------------------------------------------------------------------------

  /** No counter is negative, the global one respects its cap, and a user's count respects
      the per-user cap, or is the one unchecked first use. */
  ghost predicate Within(rows: Rows, caps: Caps) {
    && 0 <= rows.used
    && (caps.maxUses.Some? ==> rows.used <= caps.maxUses.value)
    && (forall u :: u in rows.users ==> 0 <= rows.users[u])
    && (caps.maxPerUser.Some? ==> forall u :: u in rows.users ==> rows.users[u] <= Max(1, caps.maxPerUser.value))
  }

  /** The global counter is the sum of the per-user ones. */
  ghost predicate Balanced(rows: Rows) {
    rows.used == Sum(rows.users)
  }

  lemma RedeemKeeps(rows: Rows, caps: Caps, u: User, open: bool)
    requires Within(rows, caps)
    ensures Within(Redeem(rows, caps, u, open).0, caps)
    ensures Balanced(rows) ==> Balanced(Redeem(rows, caps, u, open).0)
  {
    SumUpdate(rows.users, u, Count(rows.users, u) + 1);
  }

  /** Giving back keeps the balance exactly when the user has something to give back, or
      nobody has. */
  lemma DecrementKeeps(rows: Rows, caps: Caps, u: User)
    requires Within(rows, caps)
    ensures Within(Decrement(rows, u), caps)
    ensures Balanced(rows) ==> (Balanced(Decrement(rows, u)) <==> Count(rows.users, u) > 0 || rows.used == 0)
  {
    SumUpdate(rows.users, u, Count(rows.users, u) - 1);
    SumBounds(rows.users, u);
  }

  /** A successful redemption is undone by a give-back, up to a row left at zero. */
  lemma RedeemThenDecrement(rows: Rows, caps: Caps, u: User, open: bool)
    requires Within(rows, caps) && Redeem(rows, caps, u, open).1
    ensures var back := Decrement(Redeem(rows, caps, u, open).0, u);
      back.used == rows.used && forall v :: Count(back.users, v) == Count(rows.users, v)
  {
  }

  // ---------------------------------------------------------------------------
  // When a redemption is accepted, and what it and a give-back do
  // ---------------------------------------------------------------------------

  /** Accepted are redemptions of a coupon that is open and not used up, by a user who has no row
      yet or is below the limit; they count once for both, and refused ones count for nobody. */
  lemma WhenRedeemed(rows: Rows, caps: Caps, u: User, open: bool)
    ensures Redeem(rows, caps, u, open).1 <==>
      && open
      && (caps.maxUses == None || rows.used < caps.maxUses.value)
      && (u !in rows.users || caps.maxPerUser == None || rows.users[u] < caps.maxPerUser.value)
    ensures var (after, ok) := Redeem(rows, caps, u, open);
      if ok then after.used == rows.used + 1 && after.users == rows.users[u := Count(rows.users, u) + 1] else after == rows
  {
  }

  /** Each of the two counters goes down by one unless it is at zero or missing. */
  lemma WhatIsGivenBack(rows: Rows, u: User)
    ensures Decrement(rows, u).used == if rows.used > 0 then rows.used - 1 else rows.used
    ensures u in Decrement(rows, u).users <==> u in rows.users
    ensures u in rows.users ==> Decrement(rows, u).users[u] == if rows.users[u] > 0 then rows.users[u] - 1 else rows.users[u]
    ensures forall v :: v != u ==>
      (v in Decrement(rows, u).users <==> v in rows.users) && Count(Decrement(rows, u).users, v) == Count(rows.users, v)
  {
  }

  /** An attempt to redeem, and whether the coupon's other conditions hold then. */
  datatype Attempt = Attempt(u: User, open: bool)

  function RedeemAll(rows: Rows, caps: Caps, calls: seq<Attempt>): Rows {
    if calls == [] then rows
    else
      var last := calls[|calls| - 1];
      Redeem(RedeemAll(rows, caps, calls[..|calls| - 1]), caps, last.u, last.open).0
  }

  predicate Succeeds(rows: Rows, caps: Caps, calls: seq<Attempt>, i: nat)
    requires i < |calls|
  {
    Redeem(RedeemAll(rows, caps, calls[..i]), caps, calls[i].u, calls[i].open).1
  }

  /** How many attempts succeed, of anybody or of one user. */
  function Successes(rows: Rows, caps: Caps, calls: seq<Attempt>, who: Option<User>): nat {
    if calls == [] then 0
    else
      var i := |calls| - 1;
      Successes(rows, caps, calls[..i], who) +
      if Succeeds(rows, caps, calls, i) && (who.None? || who.value == calls[i].u) then 1 else 0
  }

  lemma {:induction false} SuccessesAreCounted(rows: Rows, caps: Caps, calls: seq<Attempt>, u: User)
    ensures RedeemAll(rows, caps, calls).used == rows.used + Successes(rows, caps, calls, None)
    ensures Count(RedeemAll(rows, caps, calls).users, u) == Count(rows.users, u) + Successes(rows, caps, calls, Some(u))
    ensures u in RedeemAll(rows, caps, calls).users <==> u in rows.users || Successes(rows, caps, calls, Some(u)) > 0
    decreases |calls|
  {
    if calls != [] {
      SuccessesAreCounted(rows, caps, calls[..|calls| - 1], u);
    }
  }

  /** Over any sequence of attempts on a coupon nobody has used: one succeeds exactly when the
      coupon is open, fewer have succeeded before than may, and fewer of its user, the first of
      whose attempts is not held against the limit. */
  lemma WhichAttemptsSucceed(caps: Caps, calls: seq<Attempt>, i: nat)
    requires i < |calls|
    ensures var unused := Rows(0, map[]);
      var all := Successes(unused, caps, calls[..i], None);
      var mine := Successes(unused, caps, calls[..i], Some(calls[i].u));
      Succeeds(unused, caps, calls, i) <==>
        && calls[i].open && (caps.maxUses.Some? ==> all < caps.maxUses.value)
        && (mine == 0 || (caps.maxPerUser.Some? ==> mine < caps.maxPerUser.value))
  {
    SuccessesAreCounted(Rows(0, map[]), caps, calls[..i], calls[i].u);
  }

  // ---------------------------------------------------------------------------
  // The calls: one transaction, committed as a whole or not at all
  // ---------------------------------------------------------------------------

  /** Where a call may fail: any statement, or the commit. */
  datatype Fault = NoFault | AtBegin | AtLock | AtUser | AtGlobal | AtCommit

  datatype Outcome = Redeemed(ok: bool) | Failed

  class Repository {
    var used: int
    var users: map<User, int>
    const caps: Caps

    constructor (caps: Caps)
      ensures Stored() == Rows(0, map[]) && this.caps == caps
    {
      this.caps := caps;
      used, users := 0, map[];
    }

    function Stored(): Rows
      reads this
    {
      Rows(used, users)
    }

    method RedeemAtomic(u: User, open: bool, fault: Fault) returns (o: Outcome)
      modifies this
      ensures o.Failed? ==> fault != NoFault && Stored() == old(Stored())
      ensures o.Redeemed? ==> (Stored(), o.ok) == Redeem(old(Stored()), caps, u, open)
      ensures fault == NoFault ==> o.Redeemed?
      ensures o == Redeemed(true) ==> fault == NoFault
      ensures fault == NoFault ==>
        (o.ok <==> open && (caps.maxUses.None? || old(used) < caps.maxUses.value) &&
                   (u !in old(users) || caps.maxPerUser.None? || old(users)[u] < caps.maxPerUser.value))
      ensures o == Redeemed(true) ==> used == old(used) + 1 && users == old(users)[u := Count(old(users), u) + 1]
    {
      if fault == AtBegin || fault == AtLock {
        return Failed;
      }
      // SELECT max_uses_per_user … FOR UPDATE
      if !(open && (caps.maxUses.None? || used < caps.maxUses.value)) {
        return Redeemed(false);
      }
      // INSERT … ON CONFLICT DO UPDATE … WHERE used_count < cap
      if fault == AtUser {
        return Failed;
      }
      var txUsers := users;
      if u !in txUsers {
        txUsers := txUsers[u := 1];
      } else if caps.maxPerUser.None? || txUsers[u] < caps.maxPerUser.value {
        txUsers := txUsers[u := txUsers[u] + 1];
      } else {
        return Redeemed(false);
      }
      // UPDATE coupons … AND (max_uses IS NULL OR used_count < max_uses)
      if fault == AtGlobal {
        return Failed;
      }
      var txUsed := used;
      if caps.maxUses.None? || txUsed < caps.maxUses.value {
        txUsed := txUsed + 1;
      } else {
        return Redeemed(false);
      }
      if fault == AtCommit {
        return Failed;
      }
      used, users := txUsed, txUsers;
      o := Redeemed(true);
    }

    method DecrementUsageAtomic(u: User, fault: Fault) returns (ok: bool)
      modifies this
      ensures ok <==> fault.NoFault? || fault.AtLock?
      ensures Stored() == if ok then Decrement(old(Stored()), u) else old(Stored())
      ensures ok ==> used == if old(used) > 0 then old(used) - 1 else old(used)
      ensures ok ==>
        users == if u in old(users) && old(users)[u] > 0 then old(users)[u := old(users)[u] - 1] else old(users)
    {
      if fault == AtBegin || fault == AtUser {
        return false;
      }
      var txUsers := users;
      if u in txUsers && txUsers[u] > 0 {
        txUsers := txUsers[u := txUsers[u] - 1];
      }
      if fault == AtGlobal {
        return false;
      }
      var txUsed := used;
      if txUsed > 0 {
        txUsed := txUsed - 1;
      }
      if fault == AtCommit {
        return false;
      }
      used, users := txUsed, txUsers;
      ok := true;
    }
  }
}
