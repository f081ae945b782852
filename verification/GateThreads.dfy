/** The idempotency gate under threads (internal/api/auth/idempotency.go:41-96).

    A step is what one thread does without giving another one a chance to see it half
    done: the collector probes one entry (TryLock, read, Unlock) and deletes it in a later
    step, the table's mutex is held from entering until the lookup is over, and an entry's
    mutex is taken in a step of its own. Between the lookup and that step the collector may
    run, which is where the interesting runs are. */
module GateThreads {
  import opened Prelude
  import opened IdempotencyGate

  type Ref = nat
  type Tid = int

  datatype Thread =
    | Outside
    | Scanning(key: Key, fingerprint: Fingerprint, now: int, todo: set<Key>)
    | Condemning(key: Key, fingerprint: Fingerprint, now: int, todo: set<Key>, victim: Key)
    | Waiting(key: Key, fingerprint: Fingerprint, ref: Ref)
    | Locked(key: Key, fingerprint: Fingerprint, ref: Ref)
    | Calling(key: Key, fingerprint: Fingerprint, ref: Ref)
    | Leaving(key: Key, fingerprint: Fingerprint, ref: Ref, reply: Option<Response>)
  {
    predicate InTable() { Scanning? || Condemning? }
    predicate InEntry() { Locked? || Calling? || Leaving? }
    predicate HasRef() { Waiting? || InEntry() }
  }

  /** entries and heap are the gate's table and the entries it points to. The last three
      fields are history: the key each entry was made for, the threads whose entry the
      collector condemned while they waited for its mutex, and the upstream calls made. */
  datatype World = World(entries: map<Key, Ref>, heap: seq<Cached>, threads: map<Tid, Thread>,
                         clock: int, ttl: int,
                         home: seq<Key>, overtaken: set<Tid>, calls: seq<(Key, Fingerprint)>)
  {
    function At(t: Tid): Thread {
      if t in threads then threads[t] else Outside
    }

    /** Nobody is inside the section guarded by the table's mutex. */
    ghost predicate TableFree() {
      forall t :: !At(t).InTable()
    }

    predicate EntryFree(r: Ref) {
      forall t :: t in threads && threads[t].InEntry() ==> threads[t].ref != r
    }

    predicate Maps(k: Key, r: Ref) {
      k in entries && entries[k] == r
    }
  }

  function Start(ttl: int): World {
    World(map[], [], map[], 0, ttl, [], {}, [])
  }

  datatype Step =
    | Tick(dt: nat)
    | Enter(t: Tid, key: Key, fingerprint: Fingerprint)
    | Probe(t: Tid, k: Key)
    | Delete(t: Tid)
    | Lookup(t: Tid)
    | LockEntry(t: Tid)
    | Check(t: Tid)
    | UpstreamFails(t: Tid)
    | UpstreamSucceeds(t: Tid, response: Response)
    | Release(t: Tid)

  /** When a step can be taken. The bounds on references hold by themselves, see BoundsCutNothing. */
  ghost predicate Enabled(w: World, s: Step) {
    match s
    case Tick(_) => true
    case Enter(t, _, _) => w.At(t).Outside? && w.TableFree()
    case Probe(t, k) => w.At(t).Scanning? && k in w.At(t).todo && k in w.entries && w.entries[k] < |w.heap|
    case Delete(t) => w.At(t).Condemning?
    case Lookup(t) => w.At(t).Scanning? && w.At(t).todo == {}
    case LockEntry(t) => w.At(t).Waiting? && w.EntryFree(w.At(t).ref)
    case Check(t) => w.At(t).Locked? && w.At(t).ref < |w.heap|
    case UpstreamFails(t) => w.At(t).Calling?
    case UpstreamSucceeds(t, _) => w.At(t).Calling? && w.At(t).ref < |w.heap|
    case Release(t) => w.At(t).Leaving?
  }

  /** The collector's verdict on a key of the table: nobody holds it and it has expired. */
  predicate Condemned(w: World, k: Key, now: int)
    requires k in w.entries && w.entries[k] < |w.heap|
  {
    w.EntryFree(w.entries[k]) && Expired(w.heap[w.entries[k]], now)
  }

  ghost function Next(w: World, s: Step): World
    requires Enabled(w, s)
  {
    match s
    case Tick(dt) => w.(clock := w.clock + dt)
    case Enter(t, key, f) =>
      w.(threads := w.threads[t := Scanning(key, f, w.clock, w.entries.Keys)])
    case Probe(t, k) =>
      var me := w.At(t);
      if Condemned(w, k, me.now) then
        w.(threads := w.threads[t := Condemning(me.key, me.fingerprint, me.now, me.todo - {k}, k)],
           overtaken := w.overtaken +
             set u | u in w.threads && w.threads[u].Waiting? && w.threads[u].ref == w.entries[k])
      else
        w.(threads := w.threads[t := Scanning(me.key, me.fingerprint, me.now, me.todo - {k})])
    case Delete(t) =>
      var me := w.At(t);
      w.(entries := w.entries - {me.victim},
         threads := w.threads[t := Scanning(me.key, me.fingerprint, me.now, me.todo)])
    case Lookup(t) =>
      var me := w.At(t);
      if me.key in w.entries then
        w.(threads := w.threads[t := Waiting(me.key, me.fingerprint, w.entries[me.key])],
           overtaken := w.overtaken - {t})
      else
        w.(threads := w.threads[t := Waiting(me.key, me.fingerprint, |w.heap|)],
           entries := w.entries[me.key := |w.heap|],
           heap := w.heap + [EMPTY], home := w.home + [me.key],
           overtaken := w.overtaken - {t})
    case LockEntry(t) =>
      var me := w.At(t);
      w.(threads := w.threads[t := Locked(me.key, me.fingerprint, me.ref)])
    case Check(t) =>
      var me := w.At(t);
      var hit := Answer(w.heap[me.ref], me.fingerprint, w.clock);
      if hit.Some? then
        w.(threads := w.threads[t := Leaving(me.key, me.fingerprint, me.ref, hit)])
      else
        w.(threads := w.threads[t := Calling(me.key, me.fingerprint, me.ref)],
           calls := w.calls + [(me.key, me.fingerprint)])
    case UpstreamFails(t) =>
      var me := w.At(t);
      w.(threads := w.threads[t := Leaving(me.key, me.fingerprint, me.ref, None)])
    case UpstreamSucceeds(t, r) =>
      var me := w.At(t);
      w.(threads := w.threads[t := Leaving(me.key, me.fingerprint, me.ref, Some(r))],
         heap := w.heap[me.ref := Cached(me.fingerprint, Some(r), w.clock + w.ttl)])
    case Release(t) =>
      w.(threads := w.threads[t := Outside])
  }

  // ---------------------------------------------------------------------------
  // What every step keeps
  // ---------------------------------------------------------------------------

  /** Every reference is to an entry made for the key it is used under. */
  ghost predicate WellFormed(w: World) {
    && |w.home| == |w.heap|
    && (forall k :: k in w.entries ==> w.entries[k] < |w.heap| && w.home[w.entries[k]] == k)
    && (forall t :: w.At(t).HasRef() ==> w.At(t).ref < |w.heap| && w.home[w.At(t).ref] == w.At(t).key)
  }

  /** The table's mutex: one collector at a time, and its list of keys is up to date. */
  ghost predicate TableMutex(w: World) {
    && (forall t, u :: w.At(t).InTable() && w.At(u).InTable() ==> t == u)
    && (forall t :: w.At(t).InTable() ==> w.At(t).todo <= w.entries.Keys && w.At(t).now <= w.clock)
    && (forall t :: w.At(t).Condemning? ==> w.At(t).victim in w.entries && w.At(t).victim !in w.At(t).todo)
  }

  /** The entries' mutexes. */
  ghost predicate EntryMutex(w: World) {
    forall t, u :: w.At(t).InEntry() && w.At(u).InEntry() && w.At(t).ref == w.At(u).ref ==> t == u
  }

  /** A thread whose entry has left the table was overtaken: the collector found that
      entry expired while the thread was waiting for its mutex. */
  ghost predicate OrphansOvertaken(w: World) {
    forall t :: w.At(t).HasRef() && !w.Maps(w.At(t).key, w.At(t).ref) ==> t in w.overtaken
  }

  /** So was a thread whose entry is about to be deleted. */
  ghost predicate CondemnedOvertaken(w: World) {
    forall t, u :: w.At(u).Condemning? && w.At(t).HasRef() && w.Maps(w.At(u).victim, w.At(t).ref) ==> t in w.overtaken
  }

  ghost predicate Inv(w: World) {
    && WellFormed(w)
    && TableMutex(w)
    && EntryMutex(w)
    && OrphansOvertaken(w)
    && CondemnedOvertaken(w)
  }

  lemma StartInv(ttl: int)
    ensures Inv(Start(ttl))
  {
  }

  /** A step touches one thread. */
  lemma OneThreadMoves(w: World, s: Step)
    requires Enabled(w, s)
    ensures !s.Tick? ==> forall t :: t != s.t ==> Next(w, s).At(t) == w.At(t)
    ensures s.Tick? ==> forall t :: Next(w, s).At(t) == w.At(t)
  {
  }

  lemma NextTableRefs(w: World, s: Step)
    requires WellFormed(w) && Enabled(w, s)
    ensures |Next(w, s).home| == |Next(w, s).heap|
    ensures forall k :: k in Next(w, s).entries ==>
      Next(w, s).entries[k] < |Next(w, s).heap| && Next(w, s).home[Next(w, s).entries[k]] == k
  {
  }

  lemma NextThreadRef(w: World, s: Step, t: Tid)
    requires WellFormed(w) && Enabled(w, s) && Next(w, s).At(t).HasRef()
    ensures |Next(w, s).home| == |Next(w, s).heap| && Next(w, s).At(t).ref < |Next(w, s).heap|
    ensures Next(w, s).home[Next(w, s).At(t).ref] == Next(w, s).At(t).key
  {
    OneThreadMoves(w, s);
    NextTableRefs(w, s);
    if !s.Tick? && s.t == t {
      assert w.At(t).HasRef() ==> w.At(t).ref < |w.heap| && w.home[w.At(t).ref] == w.At(t).key;
      assert s.Lookup? || (w.At(t).HasRef() && Next(w, s).At(t).ref == w.At(t).ref && Next(w, s).At(t).key == w.At(t).key);
    }
  }

  lemma NextWellFormed(w: World, s: Step)
    requires WellFormed(w) && Enabled(w, s)
    ensures WellFormed(Next(w, s))
  {
    NextTableRefs(w, s);
    forall t | Next(w, s).At(t).HasRef()
      ensures Next(w, s).At(t).ref < |Next(w, s).heap| && Next(w, s).home[Next(w, s).At(t).ref] == Next(w, s).At(t).key
    {
      NextThreadRef(w, s, t);
    }
  }

  lemma NextTableMutex(w: World, s: Step)
    requires TableMutex(w) && Enabled(w, s)
    ensures TableMutex(Next(w, s))
  {
    OneThreadMoves(w, s);
    var w' := Next(w, s);
    if !s.Tick? {
      assert w'.At(s.t) == if s.t in w'.threads then w'.threads[s.t] else Outside;
    }
  }

  lemma NextEntryMutex(w: World, s: Step)
    requires WellFormed(w) && EntryMutex(w) && Enabled(w, s)
    ensures EntryMutex(Next(w, s))
  {
    OneThreadMoves(w, s);
    var w' := Next(w, s);
    if !s.Tick? {
      assert w'.At(s.t) == if s.t in w'.threads then w'.threads[s.t] else Outside;
    }
  }

  lemma NextOrphans(w: World, s: Step)
    requires WellFormed(w) && OrphansOvertaken(w) && CondemnedOvertaken(w) && Enabled(w, s)
    ensures OrphansOvertaken(Next(w, s))
  {
    OneThreadMoves(w, s);
    var w' := Next(w, s);
    if !s.Tick? {
      assert w'.At(s.t) == if s.t in w'.threads then w'.threads[s.t] else Outside;
    }
  }

  lemma NextCondemned(w: World, s: Step)
    requires Inv(w) && Enabled(w, s)
    ensures CondemnedOvertaken(Next(w, s))
  {
    OneThreadMoves(w, s);
    var w' := Next(w, s);
    if !s.Tick? {
      assert w'.At(s.t) == if s.t in w'.threads then w'.threads[s.t] else Outside;
    }
  }

  lemma NextInv(w: World, s: Step)
    requires Inv(w) && Enabled(w, s)
    ensures Inv(Next(w, s))
  {
    NextWellFormed(w, s);
    NextTableMutex(w, s);
    NextEntryMutex(w, s);
    NextOrphans(w, s);
    NextCondemned(w, s);
  }

  // ---------------------------------------------------------------------------
  // Whole runs
  // ---------------------------------------------------------------------------

  ghost predicate Run(w: World, steps: seq<Step>)
    decreases |steps|
  {
    steps == [] || (Enabled(w, steps[0]) && Run(Next(w, steps[0]), steps[1..]))
  }

  ghost function After(w: World, steps: seq<Step>): (w': World)
    requires Run(w, steps)
    ensures w.clock <= w'.clock && w.calls <= w'.calls
    decreases |steps|
  {
    if steps == [] then w else After(Next(w, steps[0]), steps[1..])
  }

  lemma {:induction false} AfterInv(w: World, steps: seq<Step>)
    requires Inv(w) && Run(w, steps)
    ensures Inv(After(w, steps))
    decreases |steps|
  {
    if steps != [] {
      NextInv(w, steps[0]);
      AfterInv(Next(w, steps[0]), steps[1..]);
    }
  }

  /** Two threads inside the gate for one key at once: then the collector had found an
      expired response in the entry of one of them while that one was still waiting. */
  lemma TwoInsideMeansOvertaken(ttl: int, steps: seq<Step>, t: Tid, u: Tid)
    requires Run(Start(ttl), steps)
    requires var w := After(Start(ttl), steps);
      t != u && w.At(t).InEntry() && w.At(u).InEntry() && w.At(t).key == w.At(u).key
    ensures var w := After(Start(ttl), steps);
      w.At(t).ref != w.At(u).ref && (t in w.overtaken || u in w.overtaken)
  {
    var w := After(Start(ttl), steps);
    AfterInv(Start(ttl), steps);
    if t !in w.overtaken {
      assert w.Maps(w.At(t).key, w.At(t).ref);
    }
    if u !in w.overtaken {
      assert w.Maps(w.At(u).key, w.At(u).ref);
    }
  }

  /** No response of this key has expired. */
  predicate Unexpired(w: World, k: Key) {
    k in w.entries && w.entries[k] < |w.heap| ==> !Expired(w.heap[w.entries[k]], w.clock)
  }

  ghost predicate NeverExpires(w: World, steps: seq<Step>, k: Key)
    requires Run(w, steps)
    decreases |steps|
  {
    Unexpired(w, k) && (steps == [] || NeverExpires(Next(w, steps[0]), steps[1..], k))
  }

  ghost predicate NobodyOvertaken(w: World, k: Key) {
    forall t :: w.At(t).HasRef() && w.At(t).key == k ==> t !in w.overtaken
  }

  lemma NextNobodyOvertaken(w: World, s: Step, k: Key)
    requires Inv(w) && Enabled(w, s) && Unexpired(w, k) && NobodyOvertaken(w, k)
    ensures NobodyOvertaken(Next(w, s), k)
  {
    OneThreadMoves(w, s);
    forall t | Next(w, s).At(t).HasRef() && Next(w, s).At(t).key == k
      ensures t !in Next(w, s).overtaken
    {
      StaysUpToDate(w, s, k, t);
    }
  }

  lemma StaysUpToDate(w: World, s: Step, k: Key, t: Tid)
    requires Inv(w) && Enabled(w, s) && Unexpired(w, k) && NobodyOvertaken(w, k)
    requires Next(w, s).At(t).HasRef() && Next(w, s).At(t).key == k
    ensures t !in Next(w, s).overtaken
  {
    if s.Probe? {
      assert w.At(t) == Next(w, s).At(t);
      assert w.At(t).ref == w.entries[s.k] ==> s.k == k;
    }
  }

  lemma {:induction false} NobodyOvertakenAfter(w: World, steps: seq<Step>, k: Key)
    requires Inv(w) && Run(w, steps) && NeverExpires(w, steps, k) && NobodyOvertaken(w, k)
    ensures NobodyOvertaken(After(w, steps), k)
    decreases |steps|
  {
    if steps != [] {
      NextInv(w, steps[0]);
      NextNobodyOvertaken(w, steps[0], k);
      NobodyOvertakenAfter(Next(w, steps[0]), steps[1..], k);
    }
  }

  /** As long as no response of a key expires, the key's section is exclusive. */
  lemma ExclusiveUnlessExpired(ttl: int, steps: seq<Step>, k: Key, t: Tid, u: Tid)
    requires Run(Start(ttl), steps) && NeverExpires(Start(ttl), steps, k)
    requires var w := After(Start(ttl), steps);
      w.At(t).InEntry() && w.At(u).InEntry() && w.At(t).key == w.At(u).key == k
    ensures t == u
  {
    NobodyOvertakenAfter(Start(ttl), steps, k);
    if t != u {
      TwoInsideMeansOvertaken(ttl, steps, t, u);
    }
  }

  // ---------------------------------------------------------------------------
  // What threads may answer from
  // ---------------------------------------------------------------------------

  /** A success of an upstream call, and when it was cached. */
  datatype Success = Success(key: Key, fingerprint: Fingerprint, response: Response, at: int)

  ghost function SuccessOf(w: World, s: Step): seq<Success> {
    if s.UpstreamSucceeds? && w.At(s.t).Calling?
    then [Success(w.At(s.t).key, w.At(s.t).fingerprint, s.response, w.clock)] else []
  }

  /** The successes on a run, in order. */
  ghost function Successes(w: World, steps: seq<Step>): seq<Success>
    requires Run(w, steps)
    decreases |steps|
  {
    if steps == [] then [] else SuccessOf(w, steps[0]) + Successes(Next(w, steps[0]), steps[1..])
  }

  /** The response of an entry is one of these, for the entry's key and fingerprint, and lives as
      long from then on. */
  ghost predicate IsEarned(w: World, r: Ref, past: seq<Success>)
    requires r < |w.heap| == |w.home|
  {
    w.heap[r].response.Some? ==>
      Success(w.home[r], w.heap[r].fingerprint, w.heap[r].response.value, w.heap[r].expires - w.ttl) in past
  }

  ghost predicate AllEarned(w: World, past: seq<Success>) {
    |w.home| == |w.heap| && forall r :: 0 <= r < |w.heap| ==> IsEarned(w, r, past)
  }

  lemma NextEarned(w: World, s: Step, past: seq<Success>)
    requires WellFormed(w) && Enabled(w, s) && AllEarned(w, past)
    ensures AllEarned(Next(w, s), past + SuccessOf(w, s))
  {
    NextTableRefs(w, s);
    var w', all := Next(w, s), past + SuccessOf(w, s);
    forall r | 0 <= r < |w'.heap|
      ensures IsEarned(w', r, all)
    {
      if r < |w.heap| {
        assert IsEarned(w, r, past);
        if s.UpstreamSucceeds? && r == w.At(s.t).ref {
          assert all[|past|] == Success(w.home[r], w.At(s.t).fingerprint, s.response, w.clock);
        }
      }
    }
  }

  lemma {:induction false} AllEarnedAfter(w: World, steps: seq<Step>, past: seq<Success>)
    requires Inv(w) && Run(w, steps) && AllEarned(w, past)
    ensures AllEarned(After(w, steps), past + Successes(w, steps))
    decreases |steps|
  {
    if steps == [] {
      assert past + [] == past;
    } else {
      NextInv(w, steps[0]);
      NextEarned(w, steps[0], past);
      AllEarnedAfter(Next(w, steps[0]), steps[1..], past + SuccessOf(w, steps[0]));
      assert past + SuccessOf(w, steps[0]) + Successes(Next(w, steps[0]), steps[1..]) == past + Successes(w, steps);
    }
  }

  /** A success of the thread's own key and fingerprint, at most one time to live old, with which
      it leaves. */
  ghost predicate Answers(w: World, me: Thread, later: Thread, s: Success)
    requires me.Locked?
  {
    && s.key == me.key && s.fingerprint == me.fingerprint && w.clock <= s.at + w.ttl
    && later == Leaving(me.key, me.fingerprint, me.ref, Some(s.response))
  }

  /** The thread calls the upstream, or makes no call and is answered by one of these. */
  ghost predicate CallsOrIsAnswered(w: World, w': World, t: Tid, past: seq<Success>)
    requires w.At(t).Locked?
  {
    || (w'.At(t).Calling? && w'.calls == w.calls + [(w.At(t).key, w.At(t).fingerprint)])
    || (w'.calls == w.calls && exists i :: 0 <= i < |past| && Answers(w, w.At(t), w'.At(t), past[i]))
  }

  lemma CheckIsEarned(w: World, t: Tid, past: seq<Success>)
    requires WellFormed(w) && AllEarned(w, past) && Enabled(w, Check(t))
    ensures CallsOrIsAnswered(w, Next(w, Check(t)), t, past)
  {
    var me := w.At(t);
    var e := w.heap[me.ref];
    assert IsEarned(w, me.ref, past);
    if Answer(e, me.fingerprint, w.clock).Some? {
      var s := Success(me.key, me.fingerprint, e.response.value, e.expires - w.ttl);
      var i :| 0 <= i < |past| && past[i] == s;
      assert Answers(w, me, Next(w, Check(t)).At(t), past[i]);
    }
  }

  /** On any run, a thread that checks its entry either calls the upstream or leaves with the
      response of an earlier success for its own key and fingerprint, at most one time to live
      old. */
  lemma RepliesAreEarned(ttl: int, steps: seq<Step>, t: Tid)
    requires Run(Start(ttl), steps) && After(Start(ttl), steps).At(t).Locked?
    ensures var w := After(Start(ttl), steps);
      Enabled(w, Check(t)) && w.ttl == ttl && CallsOrIsAnswered(w, Next(w, Check(t)), t, Successes(Start(ttl), steps))
  {
    RunEarns(ttl, steps);
    TtlIsFixed(Start(ttl), steps);
    CheckIsEarned(After(Start(ttl), steps), t, Successes(Start(ttl), steps));
  }

  /** Among these is a success for the thread's key and fingerprint with this response. */
  ghost predicate HasSuccess(past: seq<Success>, me: Thread, r: Response)
    requires !me.Outside?
  {
    exists i :: 0 <= i < |past| && past[i].key == me.key && past[i].fingerprint == me.fingerprint && past[i].response == r
  }

  /** Whoever leaves with a response has it from an upstream. */
  ghost predicate NothingInvented(w: World, past: seq<Success>) {
    forall t :: w.At(t).Leaving? && w.At(t).reply.Some? ==> HasSuccess(past, w.At(t), w.At(t).reply.value)
  }

  lemma NextInventsNothing(w: World, s: Step, past: seq<Success>)
    requires WellFormed(w) && AllEarned(w, past) && NothingInvented(w, past) && Enabled(w, s)
    ensures NothingInvented(Next(w, s), past + SuccessOf(w, s))
  {
    OneThreadMoves(w, s);
    var w', all := Next(w, s), past + SuccessOf(w, s);
    forall t | w'.At(t).Leaving? && w'.At(t).reply.Some?
      ensures HasSuccess(all, w'.At(t), w'.At(t).reply.value)
    {
      if s.Tick? || s.t != t {
        var i :| 0 <= i < |past| && past[i].key == w.At(t).key && past[i].fingerprint == w.At(t).fingerprint
          && past[i].response == w.At(t).reply.value;
        assert all[i] == past[i];
      } else if s.UpstreamSucceeds? {
        assert all[|past|] == Success(w.At(t).key, w.At(t).fingerprint, s.response, w.clock);
      } else {
        assert s.Check?;
        CheckIsEarned(w, t, past);
        var i :| 0 <= i < |past| && Answers(w, w.At(t), w'.At(t), past[i]);
        assert all[i] == past[i];
      }
    }
  }

  lemma {:induction false} NothingInventedAfter(w: World, steps: seq<Step>, past: seq<Success>)
    requires Inv(w) && Run(w, steps) && AllEarned(w, past) && NothingInvented(w, past)
    ensures NothingInvented(After(w, steps), past + Successes(w, steps))
    decreases |steps|
  {
    if steps == [] {
      assert past + [] == past;
    } else {
      NextInv(w, steps[0]);
      NextEarned(w, steps[0], past);
      NextInventsNothing(w, steps[0], past);
      NothingInventedAfter(Next(w, steps[0]), steps[1..], past + SuccessOf(w, steps[0]));
      assert past + SuccessOf(w, steps[0]) + Successes(Next(w, steps[0]), steps[1..]) == past + Successes(w, steps);
    }
  }

  /** What a thread comes to leave with: a response that an upstream gave for its key and
      fingerprint, or, if it has just seen its own call fail, none. */
  ghost predicate LeavesAsToldBy(w: World, s: Step, t: Tid, past: seq<Success>)
    requires Enabled(w, s) && Next(w, s).At(t).Leaving?
  {
    var me := Next(w, s).At(t);
    if me.reply.Some? then HasSuccess(past + SuccessOf(w, s), me, me.reply.value)
    else s == UpstreamFails(t) && w.At(t).Calling?
  }

  lemma NextLeaves(w: World, s: Step, t: Tid, past: seq<Success>)
    requires WellFormed(w) && AllEarned(w, past) && NothingInvented(w, past) && Enabled(w, s)
    requires !w.At(t).Leaving? && Next(w, s).At(t).Leaving?
    ensures LeavesAsToldBy(w, s, t, past)
  {
    NextInventsNothing(w, s, past);
    OneThreadMoves(w, s);
  }

  /** Whoever comes to leave, on any run, leaves with what an upstream has said. */
  lemma RepliesComeFromUpstream(ttl: int, steps: seq<Step>, t: Tid, s: Step)
    requires Run(Start(ttl), steps) && Enabled(After(Start(ttl), steps), s)
    requires !After(Start(ttl), steps).At(t).Leaving? && Next(After(Start(ttl), steps), s).At(t).Leaving?
    ensures LeavesAsToldBy(After(Start(ttl), steps), s, t, Successes(Start(ttl), steps))
  {
    RunEarns(ttl, steps);
    RunInventsNothing(ttl, steps);
    NextLeaves(After(Start(ttl), steps), s, t, Successes(Start(ttl), steps));
  }

  lemma RunEarns(ttl: int, steps: seq<Step>)
    requires Run(Start(ttl), steps)
    ensures WellFormed(After(Start(ttl), steps))
    ensures AllEarned(After(Start(ttl), steps), Successes(Start(ttl), steps))
  {
    AfterInv(Start(ttl), steps);
    AllEarnedAfter(Start(ttl), steps, []);
    assert [] + Successes(Start(ttl), steps) == Successes(Start(ttl), steps);
  }

  lemma RunInventsNothing(ttl: int, steps: seq<Step>)
    requires Run(Start(ttl), steps)
    ensures NothingInvented(After(Start(ttl), steps), Successes(Start(ttl), steps))
  {
    NothingInventedAfter(Start(ttl), steps, []);
    assert [] + Successes(Start(ttl), steps) == Successes(Start(ttl), steps);
  }

  /** A thread that is inside gets out by leaving with its reply, and only then. */
  lemma OutMeansAnswered(w: World, s: Step, t: Tid)
    requires Enabled(w, s) && !w.At(t).Outside?
    ensures Next(w, s).At(t).Outside? <==> s == Release(t) && w.At(t).Leaving?
  {
    OneThreadMoves(w, s);
  }

  // ---------------------------------------------------------------------------
  // Everybody gets out
  // ---------------------------------------------------------------------------

  /** What the code itself waits for before a step: Enabled without its bounds on references. */
  ghost predicate Due(w: World, s: Step) {
    match s
    case Probe(t, k) => w.At(t).Scanning? && k in w.At(t).todo
    case Check(t) => w.At(t).Locked?
    case UpstreamSucceeds(t, _) => w.At(t).Calling?
    case _ => Enabled(w, s)
  }

  /** The bounds cut off no run. */
  lemma BoundsCutNothing(w: World, s: Step)
    requires Inv(w)
    ensures Enabled(w, s) <==> Due(w, s)
  {
  }

  /** A step of a thread that is already inside. */
  predicate Inward(s: Step) {
    !s.Tick? && !s.Enter?
  }

  ghost predicate SomeoneMoves(w: World) {
    exists s :: Inward(s) && Enabled(w, s)
  }

  lemma OwnStep(w: World, t: Tid)
    requires Inv(w) && (w.At(t).InTable() || w.At(t).InEntry())
    ensures SomeoneMoves(w)
  {
    match w.At(t)
    case Scanning(_, _, _, todo) =>
      if todo == {} {
        assert Inward(Lookup(t)) && Enabled(w, Lookup(t));
      } else {
        var k := SomeMember(todo);
        assert Inward(Probe(t, k)) && Enabled(w, Probe(t, k));
      }
    case Condemning(_, _, _, _, _) => assert Inward(Delete(t)) && Enabled(w, Delete(t));
    case Locked(_, _, _) => assert Inward(Check(t)) && Enabled(w, Check(t));
    case Calling(_, _, _) => assert Inward(UpstreamFails(t)) && Enabled(w, UpstreamFails(t));
    case Leaving(_, _, _, _) => assert Inward(Release(t)) && Enabled(w, Release(t));
  }

  /** The two levels of locks do not deadlock. */
  lemma NeverStuck(w: World, t: Tid)
    requires Inv(w) && !w.At(t).Outside?
    ensures SomeoneMoves(w)
  {
    if w.At(t).Waiting? {
      if w.EntryFree(w.At(t).ref) {
        assert Inward(LockEntry(t)) && Enabled(w, LockEntry(t));
      } else {
        var u :| u in w.threads && w.threads[u].InEntry() && w.threads[u].ref == w.At(t).ref;
        OwnStep(w, u);
      }
    } else {
      OwnStep(w, t);
    }
  }

  /** A bound on the steps a thread still has before it. */
  function Left(x: Thread): nat {
    match x
    case Outside => 0
    case Leaving(_, _, _, _) => 1
    case Calling(_, _, _) => 2
    case Locked(_, _, _) => 3
    case Waiting(_, _, _) => 4
    case Scanning(_, _, _, todo) => 5 + 2 * |todo|
    case Condemning(_, _, _, todo, _) => 6 + 2 * |todo|
  }

  ghost function Work(w: World): int {
    Sum(map t | t in w.threads :: Left(w.threads[t]))
  }

  lemma NextLeft(w: World, s: Step)
    requires Enabled(w, s) && Inward(s)
    ensures s.t in w.threads && Next(w, s).threads == w.threads[s.t := Next(w, s).At(s.t)]
    ensures Left(Next(w, s).At(s.t)) < Left(w.At(s.t))
  {
    if s.Probe? {
      assert |w.At(s.t).todo - {s.k}| == |w.At(s.t).todo| - 1;
    }
  }

  lemma NextWork(w: World, s: Step)
    requires Enabled(w, s) && Inward(s)
    ensures Work(Next(w, s)) < Work(w)
  {
    var w' := Next(w, s);
    NextLeft(w, s);
    var left := map t | t in w.threads :: Left(w.threads[t]);
    assert (map t | t in w'.threads :: Left(w'.threads[t])) == left[s.t := Left(w'.At(s.t))];
    SumUpdate(left, s.t, Left(w'.At(s.t)));
  }

  lemma WorkIsNonNegative(w: World)
    ensures Work(w) >= 0
  {
    SumBounds(map t | t in w.threads :: Left(w.threads[t]), 0);
  }

  lemma {:induction false} RunsDown(w: World, steps: seq<Step>)
    requires Inv(w) && Run(w, steps) && forall i :: 0 <= i < |steps| ==> Inward(steps[i])
    ensures |steps| + Work(After(w, steps)) <= Work(w)
    decreases |steps|
  {
    if steps != [] {
      NextInv(w, steps[0]);
      NextWork(w, steps[0]);
      RunsDown(Next(w, steps[0]), steps[1..]);
    }
  }

  lemma StoppedMeansEmpty(w: World)
    requires Inv(w)
    ensures !SomeoneMoves(w) <==> forall t :: w.At(t).Outside?
  {
    if t :| !w.At(t).Outside? {
      NeverStuck(w, t);
    }
  }

  /** If nobody else enters, however the threads inside are scheduled, they take so many steps at
      most, and come to a stop only when everybody is outside. */
  lemma EverybodyGetsOut(w: World, steps: seq<Step>)
    requires Inv(w) && Run(w, steps) && forall i :: 0 <= i < |steps| ==> Inward(steps[i])
    ensures |steps| <= Work(w)
    ensures !SomeoneMoves(After(w, steps)) <==> forall t :: After(w, steps).At(t).Outside?
  {
    AfterInv(w, steps);
    RunsDown(w, steps);
    WorkIsNonNegative(After(w, steps));
    StoppedMeansEmpty(After(w, steps));
  }

  // ---------------------------------------------------------------------------
  // Held entries and their deletion
  // ---------------------------------------------------------------------------

  /** The collector c finds the entry of k free and expired, and will delete it. */
  ghost predicate Condemns(w: World, c: Tid, k: Key) {
    Enabled(w, Probe(c, k)) && Condemned(w, k, w.At(c).now)
  }

  /** A run on which c does not move, so does not delete yet, leads to t holding entry r. */
  ghost predicate HeldAfter(w: World, steps: seq<Step>, c: Tid, t: Tid, r: Ref) {
    && Run(w, steps) && (forall i :: 0 <= i < |steps| ==> steps[i].Tick? || steps[i].t != c)
    && After(w, steps).At(t).InEntry() && After(w, steps).At(t).ref == r
  }

  /** Nobody has the entry in hand while c is in the table. */
  ghost predicate Unreferenced(w: World, c: Tid, r: Ref) {
    w.At(c).InTable() && forall t :: w.At(t).HasRef() ==> w.At(t).ref != r
  }

  lemma NextUnreferenced(w: World, s: Step, c: Tid, r: Ref)
    requires Inv(w) && Enabled(w, s) && Unreferenced(w, c, r) && (s.Tick? || s.t != c)
    ensures Unreferenced(Next(w, s), c, r)
  {
    OneThreadMoves(w, s);
    if !s.Tick? {
      assert Next(w, s).At(s.t) == Next(w, s).threads[s.t];
    }
  }

  lemma {:induction false} UnreferencedAfter(w: World, steps: seq<Step>, c: Tid, r: Ref)
    requires Inv(w) && Run(w, steps) && Unreferenced(w, c, r)
    requires forall i :: 0 <= i < |steps| ==> steps[i].Tick? || steps[i].t != c
    ensures Unreferenced(After(w, steps), c, r)
    decreases |steps|
  {
    if steps != [] {
      NextInv(w, steps[0]);
      NextUnreferenced(w, steps[0], c, r);
      UnreferencedAfter(Next(w, steps[0]), steps[1..], c, r);
    }
  }

  /** Between the collector's test of an entry and its deletion a thread can come to hold the
      entry exactly when, at the test, a thread was waiting for it. */
  lemma HeldBeforeDeletionIffWaiting(w: World, c: Tid, k: Key)
    requires Inv(w) && Condemns(w, c, k)
    ensures (exists steps, t :: HeldAfter(Next(w, Probe(c, k)), steps, c, t, w.entries[k])) <==>
      exists u :: w.At(u).Waiting? && w.At(u).ref == w.entries[k]
  {
    var w', r := Next(w, Probe(c, k)), w.entries[k];
    OneThreadMoves(w, Probe(c, k));
    NextInv(w, Probe(c, k));
    if u :| w.At(u).Waiting? && w.At(u).ref == r {
      WaiterCanHold(w', u, c);
    } else {
      assert Unreferenced(w', c, r);
      forall steps, t
        ensures !HeldAfter(w', steps, c, t, r)
      {
        if HeldAfter(w', steps, c, t, r) {
          UnreferencedAfter(w', steps, c, r);
        }
      }
    }
  }

  lemma WaiterCanHold(w: World, u: Tid, c: Tid)
    requires w.At(u).Waiting? && w.EntryFree(w.At(u).ref) && u != c
    ensures HeldAfter(w, [LockEntry(u)], c, u, w.At(u).ref)
  {
    assert [LockEntry(u)][1..] == [];
  }

  // ---------------------------------------------------------------------------
  // A cached success is replayed
  // ---------------------------------------------------------------------------

  /** Key k is served by entry r, which caches c, and no deletion of it is under way. */
  ghost predicate Replays(w: World, k: Key, r: Ref, c: Cached) {
    && w.Maps(k, r) && r < |w.heap| && w.heap[r] == c && c.response.Some?
    && forall t :: w.At(t).Condemning? ==> w.At(t).victim != k
  }

  ghost predicate Overwrites(w: World, s: Step, r: Ref) {
    s.UpstreamSucceeds? && w.At(s.t).Calling? && w.At(s.t).ref == r
  }

  ghost predicate NeverOverwritten(w: World, steps: seq<Step>, r: Ref)
    requires Run(w, steps)
    decreases |steps|
  {
    steps == [] ||
    (!Overwrites(w, steps[0], r) && NeverOverwritten(Next(w, steps[0]), steps[1..], r))
  }

  lemma NextReplays(w: World, s: Step, k: Key, r: Ref, c: Cached)
    requires Inv(w) && Enabled(w, s) && Replays(w, k, r, c)
    requires w.clock <= c.expires && !Overwrites(w, s, r)
    ensures Replays(Next(w, s), k, r, c)
  {
    OneThreadMoves(w, s);
    var w' := Next(w, s);
    if !s.Tick? {
      assert w'.At(s.t) == if s.t in w'.threads then w'.threads[s.t] else Outside;
    }
  }

  lemma {:induction false} ReplaysAfter(w: World, steps: seq<Step>, k: Key, r: Ref, c: Cached)
    requires Inv(w) && Run(w, steps) && Replays(w, k, r, c)
    requires After(w, steps).clock <= c.expires && NeverOverwritten(w, steps, r)
    ensures Replays(After(w, steps), k, r, c)
    decreases |steps|
  {
    if steps != [] {
      NextInv(w, steps[0]);
      NextReplays(w, steps[0], k, r, c);
      ReplaysAfter(Next(w, steps[0]), steps[1..], k, r, c);
    }
  }

  /** From the moment a success is cached until its expiry, or until another success on
      the same entry, whoever holds the entry and asks with that fingerprint is answered
      from it and the upstream is not called; whatever else the run does. */
  lemma CachedSuccessIsReplayed(w: World, steps: seq<Step>, k: Key, r: Ref, c: Cached, t: Tid)
    requires Inv(w) && Run(w, steps) && Replays(w, k, r, c)
    requires After(w, steps).clock <= c.expires && NeverOverwritten(w, steps, r)
    requires After(w, steps).At(t) == Locked(k, c.fingerprint, r)
    ensures Enabled(After(w, steps), Check(t))
    ensures var w' := After(w, steps); var w'' := Next(w', Check(t));
      w''.At(t) == Leaving(k, c.fingerprint, r, c.response) && w''.calls == w'.calls && w''.heap == w'.heap
  {
    ReplaysAfter(w, steps, k, r, c);
  }

  /** A double submit reaches the upstream once: after a success was cached for a key and
      fingerprint, the run makes no further call for them while nothing of the key expires. */
  lemma {:induction false} NoSecondUpstreamCall(w: World, steps: seq<Step>, k: Key, r: Ref, c: Cached)
    requires Inv(w) && Run(w, steps) && Replays(w, k, r, c) && NobodyOvertaken(w, k)
    requires NeverExpires(w, steps, k) && NeverOverwritten(w, steps, r)
    ensures forall i :: |w.calls| <= i < |After(w, steps).calls| ==> After(w, steps).calls[i] != (k, c.fingerprint)
    decreases |steps|
  {
    if steps != [] {
      var s := steps[0];
      NextInv(w, s);
      NextReplays(w, s, k, r, c);
      NextNobodyOvertaken(w, s, k);
      NoSecondUpstreamCall(Next(w, s), steps[1..], k, r, c);
      if s.Check? && w.At(s.t).key == k {
        assert w.Maps(k, w.At(s.t).ref);
      }
    }
  }

  /** The state in which an upstream success has just been cached is such a start, given
      that nothing of the key has expired so far. */
  lemma SuccessStartsReplay(ttl: int, steps: seq<Step>, t: Tid, response: Response)
    requires Run(Start(ttl), steps) && After(Start(ttl), steps).At(t).Calling?
    requires NeverExpires(Start(ttl), steps, After(Start(ttl), steps).At(t).key)
    ensures Enabled(After(Start(ttl), steps), UpstreamSucceeds(t, response))
    ensures var w := After(Start(ttl), steps); var me := w.At(t); var w' := Next(w, UpstreamSucceeds(t, response));
      && Inv(w') && NobodyOvertaken(w', me.key)
      && Replays(w', me.key, me.ref, Cached(me.fingerprint, Some(response), w.clock + ttl))
  {
    var w := After(Start(ttl), steps);
    var s := UpstreamSucceeds(t, response);
    AfterInv(Start(ttl), steps);
    TtlIsFixed(Start(ttl), steps);
    NobodyOvertakenAfter(Start(ttl), steps, w.At(t).key);
    NextNobodyOvertaken(w, s, w.At(t).key) by {
      UnexpiredAtEnd(Start(ttl), steps, w.At(t).key);
    }
    NextInv(w, s);
    assert w.Maps(w.At(t).key, w.At(t).ref);
  }

  lemma {:induction false} TtlIsFixed(w: World, steps: seq<Step>)
    requires Run(w, steps)
    ensures After(w, steps).ttl == w.ttl
    decreases |steps|
  {
    if steps != [] {
      TtlIsFixed(Next(w, steps[0]), steps[1..]);
    }
  }

  lemma {:induction false} UnexpiredAtEnd(w: World, steps: seq<Step>, k: Key)
    requires Run(w, steps) && NeverExpires(w, steps, k)
    ensures Unexpired(After(w, steps), k)
    decreases |steps|
  {
    if steps != [] {
      UnexpiredAtEnd(Next(w, steps[0]), steps[1..], k);
    }
  }

  // ---------------------------------------------------------------------------
  // The gap between the collector's test and its deletion
  // ---------------------------------------------------------------------------

  lemma {:induction false} RunThen(w: World, steps: seq<Step>, s: Step)
    requires Run(w, steps) && Enabled(After(w, steps), s)
    ensures Run(w, steps + [s]) && After(w, steps + [s]) == Next(After(w, steps), s)
    decreases |steps|
  {
    if steps == [] {
      assert (steps + [s])[1..] == [];
    } else {
      RunThen(Next(w, steps[0]), steps[1..], s);
      assert (steps + [s])[1..] == steps[1..] + [s];
    }
  }

  /** One more step of a run that has reached w. */
  lemma Extend(steps: seq<Step>, w: World, s: Step, w': World) returns (longer: seq<Step>)
    requires Run(Start(10), steps) && After(Start(10), steps) == w
    requires Enabled(w, s) && Next(w, s) == w'
    ensures Run(Start(10), longer) && After(Start(10), longer) == w'
  {
    RunThen(Start(10), steps, s);
    longer := steps + [s];
  }

  lemma FirstWaits() returns (steps: seq<Step>, w: World)
    ensures Run(Start(10), steps) && After(Start(10), steps) == w
    ensures w == World(map["session" := 0], [EMPTY], map[1 := Waiting("session", "code", 0)], 0, 10, ["session"], {}, [])
  {
    var w0 := Start(10);
    assert w0.entries.Keys == {};
    var w1 := w0.(threads := map[1 := Scanning("session", "code", 0, {})]);
    steps := Extend([], w0, Enter(1, "session", "code"), w1);
    w := w1.(threads := map[1 := Waiting("session", "code", 0)], entries := map["session" := 0],
             heap := [EMPTY], home := ["session"]);
    steps := Extend(steps, w1, Lookup(1), w);
  }

  lemma FirstCalls() returns (steps: seq<Step>, w: World)
    ensures Run(Start(10), steps) && After(Start(10), steps) == w
    ensures w == World(map["session" := 0], [EMPTY],
                       map[1 := Calling("session", "code", 0)], 0, 10, ["session"], {}, [("session", "code")])
  {
    var w2;
    steps, w2 := FirstWaits();
    var w3 := w2.(threads := map[1 := Locked("session", "code", 0)]);
    steps := Extend(steps, w2, LockEntry(1), w3);
    w := w3.(threads := map[1 := Calling("session", "code", 0)], calls := [("session", "code")]);
    steps := Extend(steps, w3, Check(1), w);
  }

  lemma SecondEnters() returns (steps: seq<Step>, w: World)
    ensures Run(Start(10), steps) && After(Start(10), steps) == w
    ensures w == World(map["session" := 0], [Cached("code", Some("first"), 10)],
                       map[1 := Outside, 2 := Scanning("session", "code", 0, {"session"})],
                       0, 10, ["session"], {}, [("session", "code")])
  {
    var w4;
    steps, w4 := FirstCalls();
    var w5 := w4.(threads := map[1 := Leaving("session", "code", 0, Some("first"))],
                  heap := [Cached("code", Some("first"), 10)]);
    steps := Extend(steps, w4, UpstreamSucceeds(1, "first"), w5);
    var w6 := w5.(threads := map[1 := Outside]);
    steps := Extend(steps, w5, Release(1), w6);
    assert w6.entries.Keys == {"session"};
    w := w6.(threads := map[1 := Outside, 2 := Scanning("session", "code", 0, {"session"})]);
    steps := Extend(steps, w6, Enter(2, "session", "code"), w);
  }

  lemma SecondWaits() returns (steps: seq<Step>, w: World)
    ensures Run(Start(10), steps) && After(Start(10), steps) == w
    ensures w == World(map["session" := 0], [Cached("code", Some("first"), 10)],
                       map[1 := Outside, 2 := Waiting("session", "code", 0)],
                       11, 10, ["session"], {}, [("session", "code")])
  {
    var w1;
    steps, w1 := SecondEnters();
    var w2 := w1.(threads := map[1 := Outside, 2 := Scanning("session", "code", 0, {})]);
    assert {"session"} - {"session"} == {};
    steps := Extend(steps, w1, Probe(2, "session"), w2);
    var w3 := w2.(threads := map[1 := Outside, 2 := Waiting("session", "code", 0)]);
    steps := Extend(steps, w2, Lookup(2), w3);
    w := w3.(clock := 11);
    steps := Extend(steps, w3, Tick(11), w);
  }

  lemma WaiterCondemned() returns (steps: seq<Step>, w: World)
    ensures Run(Start(10), steps) && After(Start(10), steps) == w
    ensures w ==
      World(map["session" := 0], [Cached("code", Some("first"), 10)],
            map[1 := Outside, 2 := Waiting("session", "code", 0), 3 := Condemning("other", "code", 11, {}, "session")],
            11, 10, ["session"], {2}, [("session", "code")])
  {
    var w4;
    steps, w4 := SecondWaits();
    assert w4.entries.Keys == {"session"};
    var w5 := w4.(threads := w4.threads[3 := Scanning("other", "code", 11, {"session"})]);
    steps := Extend(steps, w4, Enter(3, "other", "code"), w5);
    w := w5.(threads := w4.threads[3 := Condemning("other", "code", 11, {}, "session")], overtaken := {2});
    assert {"session"} - {"session"} == {};
    assert (set u | u in w5.threads && w5.threads[u].Waiting? && w5.threads[u].ref == w5.entries["session"]) == {2};
    steps := Extend(steps, w5, Probe(3, "session"), w);
  }

  lemma CondemnedWaiterCalls() returns (steps: seq<Step>, w: World)
    ensures Run(Start(10), steps) && After(Start(10), steps) == w
    ensures w ==
      World(map["session" := 0], [Cached("code", Some("first"), 10)],
            map[1 := Outside, 2 := Calling("session", "code", 0), 3 := Condemning("other", "code", 11, {}, "session")],
            11, 10, ["session"], {2}, [("session", "code"), ("session", "code")])
  {
    var w0;
    steps, w0 := WaiterCondemned();
    var w1 := w0.(threads := w0.threads[2 := Locked("session", "code", 0)]);
    steps := Extend(steps, w0, LockEntry(2), w1);
    w := w1.(threads := w0.threads[2 := Calling("session", "code", 0)], calls := w1.calls + [("session", "code")]);
    steps := Extend(steps, w1, Check(2), w);
  }

  /** The collector releases an entry's mutex before it deletes the entry, so a waiter may
      get in between: here the entry is deleted while thread 2 holds it, and the success it
      has just cached is lost to every later request although it has not expired. */
  lemma HeldEntryCanBeDeleted() returns (steps: seq<Step>, w: World)
    ensures Run(Start(10), steps) && After(Start(10), steps) == w
    ensures w.At(2) == Leaving("session", "code", 0, Some("second")) && "session" !in w.entries
    ensures w.heap == [Cached("code", Some("second"), 21)] && w.clock == 11
  {
    var w2;
    steps, w2 := CondemnedWaiterCalls();
    var w3 := w2.(threads := w2.threads[2 := Leaving("session", "code", 0, Some("second"))],
                  heap := [Cached("code", Some("second"), 21)]);
    steps := Extend(steps, w2, UpstreamSucceeds(2, "second"), w3);
    w := w3.(threads := w3.threads[3 := Scanning("other", "code", 11, {})], entries := map[]);
    steps := Extend(steps, w3, Delete(3), w);
  }
}
