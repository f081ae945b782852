/** The rate limiter's own methods (internal/shared/middleware/ratelimit.go:12-96), each as the
    section it runs under its mutex, against the buckets of RateLimits. */
module RateLimiter {
  import opened Prelude
  import opened RateLimits

  class Limiter {
    const policy: Policy
    var tokens: real
    var last: real

    function Bucket(): Bucket
      reads this
    {
      RateLimits.Bucket.Bucket(tokens, last)
    }

    constructor (p: Policy, now: real)
      ensures policy == p && Bucket() == Full(p, now)
    {
      policy, tokens, last := p, p.burst as real, now;
    }

    /** A call is allowed when there is a token for it, which it takes; one that is denied
        leaves everything as it is. */
    method Allow(now: real) returns (ok: bool)
      modifies this
      ensures ok == Allows(policy, old(Bucket()), now)
      ensures Bucket() == Take(policy, old(Bucket()), now)
    {
      var level := tokens + Refill(policy, now - last);
      if level > policy.burst as real {
        level := policy.burst as real;
      }
      ok := level >= 1.0;
      if ok {
        tokens, last := level - 1.0, now;
      }
    }
  }

  class Visitor {
    const limiter: Limiter
    var lastSeen: real

    constructor (limiter: Limiter, now: real)
      ensures this.limiter == limiter && lastSeen == now
    {
      this.limiter, lastSeen := limiter, now;
    }
  }

  class Registry {
    const policy: Policy
    var visitors: map<Key, Visitor>

    /** No two keys share a visitor or a limiter. */
    ghost predicate Valid()
      reads this
    {
      forall j, k :: j in visitors && k in visitors && j != k ==>
        visitors[j] != visitors[k] && visitors[j].limiter != visitors[k].limiter
    }

    constructor (p: Policy)
      ensures Valid() && policy == p && visitors == map[]
    {
      policy, visitors := p, map[];
    }

    /** The visitor's own limiter, made on its first visit, and the time of the visit noted. */
    method GetVisitor(k: Key, now: real) returns (limiter: Limiter)
      requires Valid()
      modifies this, set j | j in visitors :: visitors[j]
      ensures Valid()
      ensures k in visitors && visitors[k].limiter == limiter && visitors[k].lastSeen == now
      ensures k in old(visitors) ==> visitors == old(visitors)
      ensures k !in old(visitors) ==>
        && visitors == old(visitors)[k := visitors[k]] && fresh(visitors[k]) && fresh(limiter)
        && limiter.policy == policy && limiter.Bucket() == Full(policy, now)
      ensures forall j :: j in old(visitors) && j != k ==> visitors[j].lastSeen == old(visitors[j].lastSeen)
    {
      if k !in visitors {
        limiter := new Limiter(policy, now);
        var v := new Visitor(limiter, now);
        visitors := visitors[k := v];
        return;
      }
      visitors[k].lastSeen := now;
      limiter := visitors[k].limiter;
    }

    /** One call on the key's own limiter. The visitors and buckets of all other keys stay. */
    method AllowKey(k: Key, now: real) returns (ok: bool)
      requires Valid()
      modifies this, set j | j in visitors :: visitors[j]
      modifies set j | j in visitors :: visitors[j].limiter
      ensures Valid()
      ensures k in visitors && visitors[k].lastSeen == now
      ensures k in old(visitors) ==>
        && visitors == old(visitors)
        && ok == Allows(visitors[k].limiter.policy, old(visitors[k].limiter.Bucket()), now)
        && visitors[k].limiter.Bucket() == Take(visitors[k].limiter.policy, old(visitors[k].limiter.Bucket()), now)
      ensures k !in old(visitors) ==>
        && visitors == old(visitors)[k := visitors[k]]
        && ok == Allows(policy, Full(policy, now), now)
        && visitors[k].limiter.Bucket() == Take(policy, Full(policy, now), now)
      ensures forall j :: j in old(visitors) && j != k ==>
        && visitors[j].lastSeen == old(visitors[j].lastSeen)
        && visitors[j].limiter.Bucket() == old(visitors[j].limiter.Bucket())
    {
      var limiter := GetVisitor(k, now);
      ok := limiter.Allow(now);
    }

    /** One tick of the cleanup: exactly the visitors idle for more than three minutes go. */
    method SweepIdle(now: real)
      requires Valid()
      modifies this
      ensures Valid()
      ensures forall k :: k in visitors <==> k in old(visitors) && now - old(visitors)[k].lastSeen <= 180.0
      ensures forall k :: k in visitors ==> visitors[k] == old(visitors)[k]
    {
      var todo := visitors;
      while todo != map[]
        invariant forall k :: k in todo ==> k in old(visitors) && todo[k] == old(visitors)[k]
        invariant forall k :: k in visitors <==>
          k in old(visitors) && (k in todo || !(now - old(visitors)[k].lastSeen > MAX_IDLE))
        invariant forall k :: k in visitors ==> visitors[k] == old(visitors)[k]
        decreases |todo.Keys|
      {
        ghost var some := SomeKey(todo);
        assert some in todo;
        var k :| k in todo;
        if now - todo[k].lastSeen > MAX_IDLE {
          visitors := visitors - {k};
        }
        assert (todo - {k}).Keys == todo.Keys - {k};
        todo := todo - {k};
      }
    }
  }
}
