/** Rate limiting per visitor and the eviction of idle visitors
    (internal/shared/middleware/ratelimit.go:12-96, cmd/app/main.go:383-435).

    A limiter is the token bucket of golang.org/x/time/rate; times are in seconds. */
module RateLimits {
  import opened Prelude

  type Key = int
  type Tid = int

  const MAX_IDLE: real := 180.0

  datatype Policy = Policy(rate: real, burst: int)
  {
    predicate Valid() { rate > 0.0 && burst >= 1 }
  }

  datatype Bucket = Bucket(tokens: real, last: real)

  function Refill(p: Policy, seconds: real): real {
    p.rate * seconds
  }

  function AtMost(limit: real, x: real): real {
    if x < limit then x else limit
  }

  /** The tokens there are at some time. */
  function Level(p: Policy, b: Bucket, now: real): real {
    AtMost(p.burst as real, b.tokens + Refill(p, now - b.last))
  }

  function Full(p: Policy, now: real): Bucket {
    Bucket(p.burst as real, now)
  }

  predicate Allows(p: Policy, b: Bucket, now: real) {
    Level(p, b, now) >= 1.0
  }

  /** A call that is denied leaves the bucket as it is. */
  function Take(p: Policy, b: Bucket, now: real): Bucket {
    if Allows(p, b, now) then Bucket(Level(p, b, now) - 1.0, now) else b
  }

  predicate Sane(p: Policy, b: Bucket, now: real) {
    b.last <= now && 0.0 <= b.tokens <= p.burst as real
  }

  // ---------------------------------------------------------------------------
  // One bucket
  // ---------------------------------------------------------------------------

  lemma RefillInParts(p: Policy, a: real, b: real)
    ensures Refill(p, a + b) == Refill(p, a) + Refill(p, b)
  {
  }

  lemma RefillGrows(p: Policy, seconds: real)
    requires p.Valid() && seconds >= 0.0
    ensures Refill(p, seconds) >= 0.0
  {
  }

  /** What a bucket will hold depends on what it holds. */
  lemma LevelLater(p: Policy, b: Bucket, now: real, later: real)
    requires p.Valid() && now <= later
    ensures Level(p, b, later) == AtMost(p.burst as real, Level(p, b, now) + Refill(p, later - now))
  {
    RefillInParts(p, now - b.last, later - now);
    RefillGrows(p, later - now);
    assert now - b.last + (later - now) == later - b.last;
  }

  lemma LevelAtLast(p: Policy, b: Bucket)
    requires b.tokens <= p.burst as real
    ensures Level(p, b, b.last) == b.tokens
  {
    assert Refill(p, b.last - b.last) == 0.0;
  }

  lemma LevelIsSane(p: Policy, b: Bucket, now: real)
    requires p.Valid() && Sane(p, b, now)
    ensures 0.0 <= Level(p, b, now) <= p.burst as real
    ensures Sane(p, Take(p, b, now), now)
    ensures Level(p, Take(p, b, now), now) == Level(p, b, now) - if Allows(p, b, now) then 1.0 else 0.0
  {
    RefillGrows(p, now - b.last);
    if Allows(p, b, now) {
      LevelAtLast(p, Take(p, b, now));
    }
  }

  lemma FullIsFull(p: Policy, now: real)
    ensures Level(p, Full(p, now), now) == p.burst as real
  {
  }

  /** A bucket last taken from within `delay` of being looked up, and idle since. */
  predicate Idle(p: Policy, delay: real, b: Bucket, seen: real, now: real) {
    0.0 <= b.tokens <= p.burst as real && b.last <= seen + delay && now - seen > MAX_IDLE
  }

  ghost predicate IdleMeansFull(p: Policy, delay: real) {
    forall b: Bucket, seen: real, now: real :: Idle(p, delay, b, seen, now) ==> Level(p, b, now) == p.burst as real
  }

  /** Exactly when the burst is refilled in what the idle time leaves. */
  lemma WhenIdleMeansFull(p: Policy, delay: real)
    requires p.Valid()
    ensures IdleMeansFull(p, delay) <==> p.burst as real <= p.rate * (180.0 - delay)
  {
    if p.burst as real <= Refill(p, MAX_IDLE - delay) {
      forall b: Bucket, seen: real, now: real | Idle(p, delay, b, seen, now)
        ensures Level(p, b, now) == p.burst as real
      {
        var extra := now - b.last - (MAX_IDLE - delay);
        RefillInParts(p, MAX_IDLE - delay, extra);
        RefillGrows(p, extra);
        assert MAX_IDLE - delay + extra == now - b.last;
      }
    } else {
      var short := p.burst as real - Refill(p, MAX_IDLE - delay);
      var extra := short / (2.0 * p.rate);
      assert p.rate * extra == short / 2.0;
      var b, now := Bucket(0.0, delay), MAX_IDLE + extra;
      RefillInParts(p, MAX_IDLE - delay, extra);
      assert MAX_IDLE - delay + extra == now - b.last;
      assert Level(p, b, now) < p.burst as real;
      assert Idle(p, delay, b, 0.0, now);
    }
  }

  /** The five limiters of the service: with up to two minutes between looking a visitor up and
      asking its limiter, an idle one is full. */
  const LIMITERS: seq<Policy> := [
    Policy(5.0 / 60.0, 3),    // coupon validation
    Policy(15.0 / 60.0, 10),  // authentication
    Policy(30.0 / 60.0, 10),  // point of sale
    Policy(1.0, 10),          // payment webhook
    Policy(2.0 / 60.0, 2)     // feedback
  ]

  lemma ServiceLimitersRefill(i: nat)
    requires i < |LIMITERS|
    ensures LIMITERS[i].Valid() && IdleMeansFull(LIMITERS[i], 120.0)
  {
  }

  /** So many calls at once are all allowed exactly when there are that many tokens. */
  predicate AllAllowed(p: Policy, b: Bucket, now: real, n: nat)
    decreases n
  {
    n == 0 || (Allows(p, b, now) && AllAllowed(p, Take(p, b, now), now, n - 1))
  }

  lemma {:induction false} TokensAreCalls(p: Policy, b: Bucket, now: real, n: nat)
    requires p.Valid() && Sane(p, b, now)
    ensures AllAllowed(p, b, now, n) <==> Level(p, b, now) >= n as real
    decreases n
  {
    LevelIsSane(p, b, now);
    if n > 0 && Allows(p, b, now) {
      TokensAreCalls(p, Take(p, b, now), now, n - 1);
    }
  }

  /** A full bucket allows a burst at once, and no more. */
  lemma FullAllowsTheBurst(p: Policy, now: real, n: nat)
    requires p.Valid()
    ensures AllAllowed(p, Full(p, now), now, n) <==> n <= p.burst
  {
    FullIsFull(p, now);
    TokensAreCalls(p, Full(p, now), now, n);
  }

  /** Tokens come in at the rate, up to the burst; a call is allowed from one token on, and takes
      it, and one that is denied costs nothing. */
  lemma TokensComeAtTheRate(p: Policy, b: Bucket, now: real, seconds: real)
    requires p.Valid() && Sane(p, b, now) && seconds >= 0.0
    ensures var had := Level(p, b, now);
      var left := if had >= 1.0 then had - 1.0 else had;
      var more := left + p.rate * seconds;
      && Allows(p, b, now) == (had >= 1.0)
      && Level(p, Take(p, b, now), now + seconds) == (if more < p.burst as real then more else p.burst as real)
  {
    LevelIsSane(p, b, now);
    LevelLater(p, Take(p, b, now), now, now + seconds);
  }

  /** A caller can tell a bucket from the full one that replaces it by its burst of calls. */
  ghost predicate Shows(p: Policy, b: Bucket, now: real)
    requires p.Valid()
  {
    AllAllowed(p, Full(p, now), now, p.burst) && !AllAllowed(p, b, now, p.burst)
  }

  /** Otherwise dropping an idle visitor can be noticed. */
  lemma WhenEvictionShows(p: Policy, delay: real)
    requires p.Valid() && delay <= MAX_IDLE
    ensures !IdleMeansFull(p, delay) <==> exists b, seen, now :: Idle(p, delay, b, seen, now) && Shows(p, b, now)
  {
    forall b, seen, now | Idle(p, delay, b, seen, now)
      ensures Shows(p, b, now) <==> Level(p, b, now) != p.burst as real
    {
      TokensAreCalls(p, b, now, p.burst);
      FullIsFull(p, now);
      TokensAreCalls(p, Full(p, now), now, p.burst);
    }
    if !IdleMeansFull(p, delay) {
      var b, seen, now :| Idle(p, delay, b, seen, now) && Level(p, b, now) != p.burst as real;
      assert Shows(p, b, now);
    }
  }

  // ---------------------------------------------------------------------------
  // The registry, beside one that never drops a visitor
  // ---------------------------------------------------------------------------

  type Ref = int

  datatype Visitor = Visitor(limiter: Ref, lastSeen: real)
  datatype Pending = Pending(key: Key, limiter: Ref, since: real)
  datatype Answer = Answer(key: Key, at: real, ok: bool)

  /** visitors and limiters are the registry, pending the callers that have looked
      their limiter up but not asked it yet. home is the visitor each limiter was made for.
      kept are the buckets of a registry that drops nobody, full where it has none. */
  datatype World = World(clock: real, visitors: map<Key, Visitor>, limiters: seq<Bucket>, home: seq<Key>,
                         pending: map<Tid, Pending>, answers: seq<Answer>,
                         kept: map<Key, Bucket>, keptAnswers: seq<Answer>)
  {
    function Kept(p: Policy, k: Key): Bucket {
      if k in kept then kept[k] else Full(p, clock)
    }
  }

  datatype Step = Tick(seconds: real) | Lookup(t: Tid, key: Key) | Ask(t: Tid) | Sweep

  /** Time does not pass a caller's delay. The bound on an asked limiter holds by itself, see
      AskIsDue. */
  ghost predicate Enabled(w: World, delay: real, s: Step) {
    match s
    case Tick(seconds) =>
      seconds >= 0.0 && forall t :: t in w.pending ==> w.clock + seconds <= w.pending[t].since + delay
    case Lookup(t, _) => t !in w.pending
    case Ask(t) => t in w.pending && 0 <= w.pending[t].limiter < |w.limiters|
    case Sweep => true
  }

  ghost function Next(p: Policy, w: World, delay: real, s: Step): World
    requires Enabled(w, delay, s)
  {
    match s
    case Tick(seconds) => w.(clock := w.clock + seconds)
    case Lookup(t, key) =>
      if key in w.visitors then
        w.(visitors := w.visitors[key := Visitor(w.visitors[key].limiter, w.clock)],
           pending := w.pending[t := Pending(key, w.visitors[key].limiter, w.clock)])
      else
        w.(visitors := w.visitors[key := Visitor(|w.limiters|, w.clock)],
           limiters := w.limiters + [Full(p, w.clock)], home := w.home + [key],
           pending := w.pending[t := Pending(key, |w.limiters|, w.clock)])
    case Ask(t) =>
      var me := w.pending[t];
      var b, k := w.limiters[me.limiter], w.Kept(p, me.key);
      w.(limiters := w.limiters[me.limiter := Take(p, b, w.clock)],
         kept := w.kept[me.key := Take(p, k, w.clock)],
         pending := w.pending - {t},
         answers := w.answers + [Answer(me.key, w.clock, Allows(p, b, w.clock))],
         keptAnswers := w.keptAnswers + [Answer(me.key, w.clock, Allows(p, k, w.clock))])
    case Sweep =>
      w.(visitors := map k | k in w.visitors && !(w.clock - w.visitors[k].lastSeen > MAX_IDLE) :: w.visitors[k])
  }

  /** A visitor's limiter is its own, and holds what the kept one holds. */
  ghost predicate VisitorIsSound(p: Policy, delay: real, w: World, k: Key)
    requires k in w.visitors
  {
    var v := w.visitors[k];
    && 0 <= v.limiter < |w.limiters| && v.limiter < |w.home| && w.home[v.limiter] == k
    && v.lastSeen <= w.clock
    && Sane(p, w.limiters[v.limiter], w.clock) && w.limiters[v.limiter].last <= v.lastSeen + delay
    && Level(p, w.limiters[v.limiter], w.clock) == Level(p, w.Kept(p, k), w.clock)
  }

  ghost predicate VisitorsAreSound(p: Policy, delay: real, w: World) {
    |w.home| == |w.limiters| && forall k :: k in w.visitors ==> VisitorIsSound(p, delay, w, k)
  }

  /** Who has been dropped, or has not come yet, would have a full limiter anyway. */
  ghost predicate StrangersAreFull(p: Policy, w: World) {
    forall k :: k !in w.visitors ==> IsFull(p, w, k)
  }

  predicate IsFull(p: Policy, w: World, k: Key) {
    Level(p, w.Kept(p, k), w.clock) == p.burst as real
  }

  ghost predicate KeptAreSane(p: Policy, w: World) {
    forall k :: k in w.kept ==> Sane(p, w.kept[k], w.clock)
  }

  /** Whoever is about to ask a limiter asks the one on record, before its delay is over. */
  ghost predicate PendingIsSound(delay: real, w: World, q: Pending) {
    && q.key in w.visitors && w.visitors[q.key].limiter == q.limiter
    && q.since <= w.visitors[q.key].lastSeen && w.clock <= q.since + delay
  }

  ghost predicate AllPendingAreSound(delay: real, w: World) {
    forall t :: t in w.pending ==> PendingIsSound(delay, w, w.pending[t])
  }

  ghost predicate Inv(p: Policy, delay: real, w: World) {
    && VisitorsAreSound(p, delay, w) && StrangersAreFull(p, w) && KeptAreSane(p, w)
    && AllPendingAreSound(delay, w) && w.answers == w.keptAnswers
  }

  ghost predicate Suitable(p: Policy, delay: real) {
    p.Valid() && 0.0 <= delay <= MAX_IDLE && IdleMeansFull(p, delay)
  }

  lemma KeptIsSane(p: Policy, w: World, k: Key)
    requires p.Valid() && KeptAreSane(p, w)
    ensures Sane(p, w.Kept(p, k), w.clock)
  {
  }

  lemma TickKeeps(p: Policy, delay: real, w: World, seconds: real)
    requires Suitable(p, delay) && Inv(p, delay, w) && Enabled(w, delay, Tick(seconds))
    ensures Inv(p, delay, Next(p, w, delay, Tick(seconds)))
  {
    var w' := Next(p, w, delay, Tick(seconds));
    forall k
      ensures Level(p, w'.Kept(p, k), w'.clock) ==
        AtMost(p.burst as real, Level(p, w.Kept(p, k), w.clock) + Refill(p, seconds))
    {
      KeptLater(p, w, k, seconds);
    }
    forall k | k in w'.visitors
      ensures VisitorIsSound(p, delay, w', k)
    {
      LevelLater(p, w.limiters[w.visitors[k].limiter], w.clock, w'.clock);
      assert VisitorIsSound(p, delay, w, k);
    }
    forall k | k !in w'.visitors
      ensures IsFull(p, w', k)
    {
      assert IsFull(p, w, k);
      RefillGrows(p, seconds);
    }
  }

  lemma KeptLater(p: Policy, w: World, k: Key, seconds: real)
    requires p.Valid() && seconds >= 0.0
    ensures var w' := w.(clock := w.clock + seconds);
      Level(p, w'.Kept(p, k), w'.clock) == AtMost(p.burst as real, Level(p, w.Kept(p, k), w.clock) + Refill(p, seconds))
  {
  }

  lemma LookupKeeps(p: Policy, delay: real, w: World, t: Tid, key: Key)
    requires Suitable(p, delay) && Inv(p, delay, w) && Enabled(w, delay, Lookup(t, key))
    ensures Inv(p, delay, Next(p, w, delay, Lookup(t, key)))
  {
    var w' := Next(p, w, delay, Lookup(t, key));
    LookupVisitors(p, delay, w, t, key);
    forall k | k !in w'.visitors
      ensures IsFull(p, w', k)
    {
      assert IsFull(p, w, k);
    }
    forall u | u in w'.pending
      ensures PendingIsSound(delay, w', w'.pending[u])
    {
      if u != t {
        assert PendingIsSound(delay, w, w.pending[u]);
        assert VisitorIsSound(p, delay, w, w.pending[u].key);
      }
    }
  }

  lemma LookupVisitors(p: Policy, delay: real, w: World, t: Tid, key: Key)
    requires Suitable(p, delay) && VisitorsAreSound(p, delay, w) && StrangersAreFull(p, w)
    requires Enabled(w, delay, Lookup(t, key))
    ensures VisitorsAreSound(p, delay, Next(p, w, delay, Lookup(t, key)))
  {
    var w' := Next(p, w, delay, Lookup(t, key));
    forall k | k in w'.visitors
      ensures VisitorIsSound(p, delay, w', k)
    {
      if k in w.visitors {
        assert VisitorIsSound(p, delay, w, k);
      } else {
        assert IsFull(p, w, k);
        FullIsFull(p, w.clock);
      }
    }
  }

  lemma AskKeeps(p: Policy, delay: real, w: World, t: Tid)
    requires Suitable(p, delay) && Inv(p, delay, w) && Enabled(w, delay, Ask(t))
    ensures Inv(p, delay, Next(p, w, delay, Ask(t)))
  {
  }

  lemma SweepKeeps(p: Policy, delay: real, w: World)
    requires Suitable(p, delay) && Inv(p, delay, w)
    ensures Inv(p, delay, Next(p, w, delay, Sweep))
  {
    var w' := Next(p, w, delay, Sweep);
    forall k | k in w'.visitors
      ensures VisitorIsSound(p, delay, w', k)
    {
      assert VisitorIsSound(p, delay, w, k);
    }
    forall k | k !in w'.visitors
      ensures IsFull(p, w', k)
    {
      if k in w.visitors {
        assert VisitorIsSound(p, delay, w, k);
        assert Idle(p, delay, w.limiters[w.visitors[k].limiter], w.visitors[k].lastSeen, w.clock);
      } else {
        assert IsFull(p, w, k);
      }
    }
    forall u | u in w'.pending
      ensures PendingIsSound(delay, w', w'.pending[u])
    {
      assert PendingIsSound(delay, w, w.pending[u]);
    }
  }

  lemma NextInv(p: Policy, delay: real, w: World, s: Step)
    requires Suitable(p, delay) && Inv(p, delay, w) && Enabled(w, delay, s)
    ensures Inv(p, delay, Next(p, w, delay, s))
  {
    match s
    case Tick(seconds) => TickKeeps(p, delay, w, seconds);
    case Lookup(t, key) => LookupKeeps(p, delay, w, t, key);
    case Ask(t) => AskKeeps(p, delay, w, t);
    case Sweep => SweepKeeps(p, delay, w);
  }

  // ---------------------------------------------------------------------------
  // Whole runs
  // ---------------------------------------------------------------------------

  function Start(): World {
    World(0.0, map[], [], [], map[], [], map[], [])
  }

  ghost predicate Run(p: Policy, w: World, delay: real, steps: seq<Step>)
    decreases |steps|
  {
    steps == [] || (Enabled(w, delay, steps[0]) && Run(p, Next(p, w, delay, steps[0]), delay, steps[1..]))
  }

  ghost function After(p: Policy, w: World, delay: real, steps: seq<Step>): World
    requires Run(p, w, delay, steps)
    decreases |steps|
  {
    if steps == [] then w else After(p, Next(p, w, delay, steps[0]), delay, steps[1..])
  }

  lemma {:induction false} AfterInv(p: Policy, w: World, delay: real, steps: seq<Step>)
    requires Suitable(p, delay) && Inv(p, delay, w) && Run(p, w, delay, steps)
    ensures Inv(p, delay, After(p, w, delay, steps))
    decreases |steps|
  {
    if steps != [] {
      NextInv(p, delay, w, steps[0]);
      AfterInv(p, Next(p, w, delay, steps[0]), delay, steps[1..]);
    }
  }

  lemma StartInv(p: Policy, delay: real)
    requires Suitable(p, delay)
    ensures Inv(p, delay, Start())
  {
  }

  /** Over every run the registry answers as one that drops nobody. */
  lemma EvictionIsUnobservable(p: Policy, delay: real, steps: seq<Step>)
    requires Suitable(p, delay) && Run(p, Start(), delay, steps)
    ensures var w := After(p, Start(), delay, steps); w.answers == w.keptAnswers
  {
    StartInv(p, delay);
    AfterInv(p, Start(), delay, steps);
  }

  // ---------------------------------------------------------------------------
  // Otherwise some run shows the eviction
  // ---------------------------------------------------------------------------

  ghost predicate LimitersExist(w: World) {
    && (forall k :: k in w.visitors ==> 0 <= w.visitors[k].limiter < |w.limiters|)
    && (forall t :: t in w.pending ==> 0 <= w.pending[t].limiter < |w.limiters|)
  }

  lemma {:induction false} LimitersExistAfter(p: Policy, w: World, delay: real, steps: seq<Step>)
    requires LimitersExist(w) && Run(p, w, delay, steps)
    ensures LimitersExist(After(p, w, delay, steps))
    decreases |steps|
  {
    if steps != [] {
      LimitersExistAfter(p, Next(p, w, delay, steps[0]), delay, steps[1..]);
    }
  }

  /** Whoever has looked its limiter up can ask it, on any run and under any policy. */
  lemma AskIsDue(p: Policy, delay: real, steps: seq<Step>, t: Tid)
    requires Run(p, Start(), delay, steps)
    ensures var w := After(p, Start(), delay, steps); Enabled(w, delay, Ask(t)) <==> t in w.pending
  {
    LimitersExistAfter(p, Start(), delay, steps);
  }

  ghost predicate Reachable(p: Policy, delay: real, w: World) {
    exists steps :: Run(p, Start(), delay, steps) && After(p, Start(), delay, steps) == w
  }

  lemma {:induction false} RunThen(p: Policy, w: World, delay: real, steps: seq<Step>, s: Step)
    requires Run(p, w, delay, steps) && Enabled(After(p, w, delay, steps), delay, s)
    ensures Run(p, w, delay, steps + [s])
    ensures After(p, w, delay, steps + [s]) == Next(p, After(p, w, delay, steps), delay, s)
    decreases |steps|
  {
    if steps == [] {
      assert (steps + [s])[1..] == [];
    } else {
      RunThen(p, Next(p, w, delay, steps[0]), delay, steps[1..], s);
      assert (steps + [s])[1..] == steps[1..] + [s];
    }
  }

  lemma ReachNext(p: Policy, delay: real, w: World, s: Step)
    requires Reachable(p, delay, w) && Enabled(w, delay, s)
    ensures Reachable(p, delay, Next(p, w, delay, s))
  {
    var steps :| Run(p, Start(), delay, steps) && After(p, Start(), delay, steps) == w;
    RunThen(p, Start(), delay, steps, s);
  }

  function Waiting(n: nat): map<Tid, Pending> {
    if n == 0 then map[] else Waiting(n - 1)[n - 1 := Pending(0, 0, 0.0)]
  }

  lemma {:induction false} WaitingHas(n: nat, t: Tid)
    ensures t in Waiting(n) <==> 0 <= t < n
    ensures t in Waiting(n) ==> Waiting(n)[t] == Pending(0, 0, 0.0)
    decreases n
  {
    if n > 0 {
      WaitingHas(n - 1, t);
    }
  }

  /** So many callers have looked up visitor 0, all of them at its first visit. */
  function Crowd(p: Policy, n: nat): World {
    World(0.0, map[0 := Visitor(0, 0.0)], [Full(p, 0.0)], [0], Waiting(n), [], map[], [])
  }

  lemma {:induction false} CrowdGathers(p: Policy, delay: real, n: nat)
    requires n >= 1
    ensures Reachable(p, delay, Crowd(p, n))
    decreases n
  {
    if n == 1 {
      assert Reachable(p, delay, Start()) by {
        assert After(p, Start(), delay, []) == Start();
      }
      assert Waiting(1) == Waiting(0)[0 := Pending(0, 0, 0.0)];
      ReachNext(p, delay, Start(), Lookup(0, 0));
      assert Next(p, Start(), delay, Lookup(0, 0)) == Crowd(p, 1);
    } else {
      CrowdGathers(p, delay, n - 1);
      WaitingHas(n - 1, n - 1);
      ReachNext(p, delay, Crowd(p, n - 1), Lookup(n - 1, 0));
      assert Next(p, Crowd(p, n - 1), delay, Lookup(n - 1, 0)) == Crowd(p, n);
    }
  }

  /** Visitor 0, last seen at its first visit, has so many tokens left, in both registries. */
  ghost predicate Draining(p: Policy, w: World, callers: nat, left: nat) {
    && w.visitors == map[0 := Visitor(0, 0.0)] && |w.limiters| == 1 && w.pending == Waiting(callers)
    && Sane(p, w.limiters[0], w.clock) && Level(p, w.limiters[0], w.clock) == left as real
    && KeptAreSane(p, w) && Level(p, w.Kept(p, 0), w.clock) == left as real
    && w.answers == w.keptAnswers
  }

  lemma AskDrains(p: Policy, delay: real, w: World, n: nat)
    requires p.Valid() && n > 0 && Draining(p, w, n, n)
    ensures Enabled(w, delay, Ask(n - 1)) && Draining(p, Next(p, w, delay, Ask(n - 1)), n - 1, n - 1)
    ensures Next(p, w, delay, Ask(n - 1)).clock == w.clock
  {
    var w' := Next(p, w, delay, Ask(n - 1));
    KeptIsSane(p, w, 0);
    LevelIsSane(p, w.limiters[0], w.clock);
    LevelIsSane(p, w.Kept(p, 0), w.clock);
    WaitingHas(n - 1, n - 1);
    assert w'.pending == Waiting(n - 1);
  }

  lemma {:induction false} CrowdDrains(p: Policy, delay: real, w: World, n: nat) returns (w': World)
    requires p.Valid() && Reachable(p, delay, w) && Draining(p, w, n, n)
    ensures Reachable(p, delay, w') && Draining(p, w', 0, 0) && w'.clock == w.clock
    decreases n
  {
    if n == 0 {
      w' := w;
    } else {
      AskDrains(p, delay, w, n);
      ReachNext(p, delay, w, Ask(n - 1));
      w' := CrowdDrains(p, delay, Next(p, w, delay, Ask(n - 1)), n - 1);
    }
  }

  /** Emptied as late after its last visit as a caller can. */
  lemma EmptyAtLast(p: Policy, delay: real) returns (w: World)
    requires p.Valid() && 0.0 <= delay
    ensures Reachable(p, delay, w) && Draining(p, w, 0, 0) && w.clock == delay
  {
    var crowd := Crowd(p, p.burst);
    CrowdGathers(p, delay, p.burst);
    forall t | t in crowd.pending
      ensures crowd.pending[t].since == 0.0
    {
      WaitingHas(p.burst, t);
    }
    ReachNext(p, delay, crowd, Tick(delay));
    RefillGrows(p, delay);
    w := CrowdDrains(p, delay, Next(p, crowd, delay, Tick(delay)), p.burst);
  }

  /** Nobody is waiting, and visitor 0 has more tokens than a registry that drops nobody has left it. */
  ghost predicate Favoured(p: Policy, w: World, n: nat) {
    && w.pending == map[] && KeptAreSane(p, w) && w.answers == w.keptAnswers
    && (0 in w.visitors ==>
          0 <= w.visitors[0].limiter < |w.limiters| && Sane(p, w.limiters[w.visitors[0].limiter], w.clock))
    && Held(p, w) >= n as real > Level(p, w.Kept(p, 0), w.clock)
  }

  function Held(p: Policy, w: World): real {
    if 0 in w.visitors && 0 <= w.visitors[0].limiter < |w.limiters|
    then Level(p, w.limiters[w.visitors[0].limiter], w.clock)
    else p.burst as real
  }

  /** After the burst has been emptied and the idle time has passed, the sweep favours the visitor. */
  lemma SweepFavours(p: Policy, delay: real) returns (w: World)
    requires p.Valid() && 0.0 <= delay <= MAX_IDLE && !IdleMeansFull(p, delay)
    ensures Reachable(p, delay, w) && Favoured(p, w, p.burst)
  {
    var w0 := EmptyAtLast(p, delay);
    var extra := ShortIdle(p, delay);
    var wait := MAX_IDLE - delay + extra;
    assert w0.pending == map[];
    var w1 := Next(p, w0, delay, Tick(wait));
    ReachNext(p, delay, w0, Tick(wait));
    KeptLater(p, w0, 0, wait);
    w := Next(p, w1, delay, Sweep);
    ReachNext(p, delay, w1, Sweep);
    assert 0 !in w.visitors;
  }

  /** A wait just longer than the idle time leaves, in which the burst does not refill. */
  lemma ShortIdle(p: Policy, delay: real) returns (extra: real)
    requires p.Valid() && delay <= MAX_IDLE && !IdleMeansFull(p, delay)
    ensures extra > 0.0 && Refill(p, MAX_IDLE - delay + extra) < p.burst as real
  {
    WhenIdleMeansFull(p, delay);
    var short := p.burst as real - Refill(p, MAX_IDLE - delay);
    extra := short / (2.0 * p.rate);
    assert p.rate * extra == short / 2.0;
    RefillInParts(p, MAX_IDLE - delay, extra);
  }

  /** A lookup and the call, one after the other. */
  ghost function Called(p: Policy, w: World, delay: real): World
    requires w.pending == map[] && (0 in w.visitors ==> 0 <= w.visitors[0].limiter < |w.limiters|)
  {
    Next(p, Next(p, w, delay, Lookup(0, 0)), delay, Ask(0))
  }

  lemma CallFavoured(p: Policy, delay: real, w: World, n: nat)
    requires p.Valid() && n <= p.burst && Favoured(p, w, n)
    ensures n > 0
    ensures Called(p, w, delay).answers != Called(p, w, delay).keptAnswers || Favoured(p, Called(p, w, delay), n - 1)
  {
    KeptIsSane(p, w, 0);
    LevelIsSane(p, w.Kept(p, 0), w.clock);
    FullIsFull(p, w.clock);
    var w1 := Next(p, w, delay, Lookup(0, 0));
    var w2 := Called(p, w, delay);
    var b := w1.limiters[w1.visitors[0].limiter];
    assert Level(p, b, w.clock) == Held(p, w) && Sane(p, b, w.clock);
    LevelIsSane(p, b, w.clock);
    assert Allows(p, b, w.clock);
    assert w1.Kept(p, 0) == w.Kept(p, 0);
    if Allows(p, w.Kept(p, 0), w.clock) {
      assert w2.pending == map[];
      assert w2.Kept(p, 0) == Take(p, w.Kept(p, 0), w.clock);
    } else {
      assert w2.answers[|w2.answers| - 1].ok && !w2.keptAnswers[|w2.keptAnswers| - 1].ok;
    }
  }

  lemma {:induction false} CallsTell(p: Policy, delay: real, w: World, n: nat) returns (w': World)
    requires p.Valid() && n <= p.burst && Reachable(p, delay, w) && Favoured(p, w, n)
    ensures Reachable(p, delay, w') && w'.answers != w'.keptAnswers
    decreases n
  {
    ReachNext(p, delay, w, Lookup(0, 0));
    ReachNext(p, delay, Next(p, w, delay, Lookup(0, 0)), Ask(0));
    CallFavoured(p, delay, w, n);
    w' := Called(p, w, delay);
    if w'.answers == w'.keptAnswers {
      w' := CallsTell(p, delay, w', n - 1);
    }
  }

  ghost predicate Unobservable(p: Policy, delay: real) {
    forall w :: Reachable(p, delay, w) ==> w.answers == w.keptAnswers
  }

  /** Dropping idle visitors can never be told from the answers if and only if an idle visitor
      always has a full bucket. */
  lemma WhenEvictionIsUnobservable(p: Policy, delay: real)
    requires p.Valid() && 0.0 <= delay <= MAX_IDLE
    ensures Unobservable(p, delay) <==> IdleMeansFull(p, delay)
  {
    if IdleMeansFull(p, delay) {
      forall w | Reachable(p, delay, w)
        ensures w.answers == w.keptAnswers
      {
        var steps :| Run(p, Start(), delay, steps) && After(p, Start(), delay, steps) == w;
        EvictionIsUnobservable(p, delay, steps);
      }
    } else {
      var favoured := SweepFavours(p, delay);
      var told := CallsTell(p, delay, favoured, p.burst);
    }
  }

  // ---------------------------------------------------------------------------
  // How much a visitor is allowed
  // ---------------------------------------------------------------------------

  /** How many calls of a visitor were allowed since some time. */
  function Admitted(answers: seq<Answer>, k: Key, since: real): nat {
    if answers == [] then 0
    else
      var a := answers[|answers| - 1];
      Admitted(answers[..|answers| - 1], k, since) + if a.key == k && a.ok && a.at >= since then 1 else 0
  }

  /** The tokens a visitor has left are those it has not used of its burst and what came in. */
  ghost predicate WithinBudget(p: Policy, w: World, k: Key, since: real) {
    Admitted(w.keptAnswers, k, since) as real + Level(p, w.Kept(p, k), w.clock) <=
      p.burst as real + if since <= w.clock then Refill(p, w.clock - since) else 0.0
  }

  ghost predicate AnswersInThePast(w: World) {
    forall i :: 0 <= i < |w.keptAnswers| ==> w.keptAnswers[i].at <= w.clock
  }

  lemma {:induction false} NoneAdmittedLater(answers: seq<Answer>, k: Key, since: real)
    requires forall i :: 0 <= i < |answers| ==> answers[i].at < since
    ensures Admitted(answers, k, since) == 0
    decreases |answers|
  {
    if answers != [] {
      NoneAdmittedLater(answers[..|answers| - 1], k, since);
    }
  }

  lemma NextWithinBudget(p: Policy, delay: real, w: World, s: Step, k: Key, since: real)
    requires p.Valid() && KeptAreSane(p, w) && AnswersInThePast(w) && WithinBudget(p, w, k, since) && Enabled(w, delay, s)
    ensures WithinBudget(p, Next(p, w, delay, s), k, since)
  {
    if s.Tick? {
      TickWithinBudget(p, w, s.seconds, k, since);
    } else if s.Ask? {
      AskWithinBudget(p, delay, w, s.t, k, since);
    } else {
      SameBudget(p, w, Next(p, w, delay, s), k, since);
    }
  }

  lemma NextAnswersInThePast(p: Policy, delay: real, w: World, s: Step)
    requires AnswersInThePast(w) && Enabled(w, delay, s)
    ensures AnswersInThePast(Next(p, w, delay, s))
  {
  }

  lemma SameBudget(p: Policy, w: World, w': World, k: Key, since: real)
    requires w'.clock == w.clock && w'.kept == w.kept && w'.keptAnswers == w.keptAnswers
    requires WithinBudget(p, w, k, since)
    ensures WithinBudget(p, w', k, since)
  {
  }

  lemma TickWithinBudget(p: Policy, w: World, seconds: real, k: Key, since: real)
    requires p.Valid() && seconds >= 0.0 && AnswersInThePast(w) && WithinBudget(p, w, k, since)
    requires Level(p, w.Kept(p, k), w.clock) <= p.burst as real
    ensures WithinBudget(p, w.(clock := w.clock + seconds), k, since)
  {
    var later := w.clock + seconds;
    KeptLater(p, w, k, seconds);
    RefillGrows(p, seconds);
    if since <= w.clock {
      RefillInParts(p, w.clock - since, seconds);
      assert w.clock - since + seconds == later - since;
    } else {
      NoneAdmittedLater(w.keptAnswers, k, since);
      if since <= later {
        RefillGrows(p, later - since);
      }
    }
  }

  /** One more answer: an allowed one costs the token it is counted for. */
  lemma AskWithinBudget(p: Policy, delay: real, w: World, t: Tid, k: Key, since: real)
    requires p.Valid() && KeptAreSane(p, w) && AnswersInThePast(w) && WithinBudget(p, w, k, since)
    requires Enabled(w, delay, Ask(t))
    ensures WithinBudget(p, Next(p, w, delay, Ask(t)), k, since)
  {
    var w', key := Next(p, w, delay, Ask(t)), w.pending[t].key;
    var b := w.Kept(p, key);
    assert w'.keptAnswers == w.keptAnswers + [Answer(key, w.clock, Allows(p, b, w.clock))];
    AdmittedAppend(w.keptAnswers, Answer(key, w.clock, Allows(p, b, w.clock)), k, since);
    assert w'.Kept(p, k) == if k == key then Take(p, b, w.clock) else w.Kept(p, k);
    if k == key {
      KeptIsSane(p, w, key);
      LevelIsSane(p, b, w.clock);
    }
  }

  lemma AdmittedAppend(answers: seq<Answer>, a: Answer, k: Key, since: real)
    ensures Admitted(answers + [a], k, since) ==
      Admitted(answers, k, since) + if a.key == k && a.ok && a.at >= since then 1 else 0
  {
    assert (answers + [a])[..|answers|] == answers;
  }

  lemma {:induction false} AfterWithinBudget(p: Policy, w: World, delay: real, steps: seq<Step>, k: Key, since: real)
    requires Suitable(p, delay) && Inv(p, delay, w) && Run(p, w, delay, steps)
    requires AnswersInThePast(w) && WithinBudget(p, w, k, since)
    ensures WithinBudget(p, After(p, w, delay, steps), k, since)
    decreases |steps|
  {
    if steps != [] {
      NextWithinBudget(p, delay, w, steps[0], k, since);
      NextAnswersInThePast(p, delay, w, steps[0]);
      NextInv(p, delay, w, steps[0]);
      AfterWithinBudget(p, Next(p, w, delay, steps[0]), delay, steps[1..], k, since);
    }
  }

  lemma StartWithinBudget(p: Policy, k: Key, since: real)
    requires p.Valid()
    ensures AnswersInThePast(Start()) && WithinBudget(p, Start(), k, since)
  {
  }

  lemma BudgetIsBound(p: Policy, w: World, k: Key, since: real)
    requires p.Valid() && KeptAreSane(p, w) && WithinBudget(p, w, k, since) && since <= w.clock
    ensures Admitted(w.keptAnswers, k, since) as real <= p.burst as real + Refill(p, w.clock - since)
  {
    KeptIsSane(p, w, k);
    LevelIsSane(p, w.Kept(p, k), w.clock);
  }

  /** From any time on, a visitor is allowed its burst and the tokens that have come in since,
      at most, evictions or not. */
  lemma AdmissionsAreBounded(p: Policy, delay: real, steps: seq<Step>, k: Key, since: real)
    requires Suitable(p, delay) && Run(p, Start(), delay, steps)
    requires since <= After(p, Start(), delay, steps).clock
    ensures var w := After(p, Start(), delay, steps);
      Admitted(w.answers, k, since) as real <= p.burst as real + p.rate * (w.clock - since)
  {
    var w := After(p, Start(), delay, steps);
    assert Inv(p, delay, w) && WithinBudget(p, w, k, since) by {
      StartInv(p, delay);
      StartWithinBudget(p, k, since);
      AfterWithinBudget(p, Start(), delay, steps, k, since);
      AfterInv(p, Start(), delay, steps);
    }
    BudgetIsBound(p, w, k, since);
  }
}
