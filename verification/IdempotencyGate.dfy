/** The idempotency gate in front of the one-shot upstream calls
    (internal/api/auth/idempotency.go, used by the verify and finalize handlers).

    The values below say what an entry answers and when it is collected. The classes
    Entry and Gate are the gate itself, one critical section after another.
    What threads may do to each other is in GateThreads. */
module IdempotencyGate {
  import opened Prelude

  type Key = string
  type Fingerprint = string
  type Response = string

  datatype Cached = Cached(fingerprint: Fingerprint, response: Option<Response>, expires: int)

  const EMPTY: Cached := Cached("", None, 0)

  /** The collector's test: a response is there and its expiry lies strictly before now. */
  predicate Expired(e: Cached, now: int) {
    e.response.Some? && e.expires < now
  }

  /** The cached response, if it answers this fingerprint and is still alive. */
  function Answer(e: Cached, f: Fingerprint, now: int): Option<Response> {
    if e.response.None? || e.fingerprint != f || now > e.expires then None else e.response
  }

  // ---------------------------------------------------------------------------
  // Complete sections, one after another
  // ---------------------------------------------------------------------------

  /** One pass of a handler through the gate. The three times are the clock readings of
      the collector, of the hit test and of the caching; upstream is what the upstream
      call would answer (None for every kind of failure); spared are the keys whose entries
      others hold when the collector passes, which it leaves alone. */
  datatype Section = Section(key: Key, fingerprint: Fingerprint, entered: int, checked: int,
                             finished: int, upstream: Option<Response>, spared: set<Key>)
  {
    predicate InOrder() {
      entered <= checked <= finished
    }
  }

  /** What the client is told, and whether the upstream was called. */
  datatype Outcome = Outcome(reply: Option<Response>, called: bool)

  function Collect(m: map<Key, Cached>, now: int, spared: set<Key>): map<Key, Cached> {
    map k | k in m && (k in spared || !Expired(m[k], now)) :: m[k]
  }

  function At(m: map<Key, Cached>, k: Key): Cached {
    if k in m then m[k] else EMPTY
  }

  /** What a handler tells its client, given the entry it holds. */
  function Decide(e: Cached, c: Section): Outcome {
    var hit := Answer(e, c.fingerprint, c.checked);
    if hit.Some? then Outcome(hit, false) else Outcome(c.upstream, true)
  }

  /** The entry a handler leaves behind: rewritten by an upstream success only. */
  function Settle(e: Cached, c: Section, ttl: int): Cached {
    if Answer(e, c.fingerprint, c.checked).None? && c.upstream.Some?
    then Cached(c.fingerprint, c.upstream, c.finished + ttl)
    else e
  }

  /** The gate's table and the client's outcome after one section, with or without collector. */
  function Serve(m: map<Key, Cached>, c: Section, ttl: int, collecting: bool): (map<Key, Cached>, Outcome) {
    var kept := if collecting then Collect(m, c.entered, c.spared) else m;
    var e := At(kept, c.key);
    (kept[c.key := Settle(e, c, ttl)], Decide(e, c))
  }

  function ServeAll(m: map<Key, Cached>, cs: seq<Section>, ttl: int, collecting: bool): (os: seq<Outcome>)
    ensures |os| == |cs|
    decreases |cs|
  {
    if cs == [] then [] else
      var (m', o) := Serve(m, cs[0], ttl, collecting);
      [o] + ServeAll(m', cs[1..], ttl, collecting)
  }

  /** The clock never runs backwards from one section to the next. */
  predicate Chronological(start: int, cs: seq<Section>)
    decreases |cs|
  {
    cs == [] || (start <= cs[0].entered && cs[0].InOrder() && Chronological(cs[0].finished, cs[1..]))
  }

  /** A collected table agrees with an uncollected one except where the latter is expired. */
  ghost predicate Agree(m: map<Key, Cached>, full: map<Key, Cached>, now: int) {
    forall k :: At(m, k) == At(full, k) || (At(m, k).response.None? && Expired(At(full, k), now))
  }

  lemma AgreeAfterSection(m: map<Key, Cached>, full: map<Key, Cached>, c: Section, ttl: int, now: int)
    requires Agree(m, full, now) && now <= c.entered && c.InOrder()
    ensures Serve(m, c, ttl, true).1 == Serve(full, c, ttl, false).1
    ensures Agree(Serve(m, c, ttl, true).0, Serve(full, c, ttl, false).0, c.finished)
  {
    var kept := Collect(m, c.entered, c.spared);
    forall k
      ensures At(kept, k) == At(full, k) || (At(kept, k).response.None? && Expired(At(full, k), c.entered))
    {
      assert At(m, k) == At(full, k) || (At(m, k).response.None? && Expired(At(full, k), now));
    }
    var after, afterFull := Serve(m, c, ttl, true).0, Serve(full, c, ttl, false).0;
    forall k
      ensures At(after, k) == At(afterFull, k) || (At(after, k).response.None? && Expired(At(afterFull, k), c.finished))
    {
      assert At(kept, k) == At(full, k) || (At(kept, k).response.None? && Expired(At(full, k), c.entered));
    }
  }

  /** Over complete sections the collector cannot be observed, whatever it spares: every reply
      and every upstream call is the one a gate that never collects would have made. */
  lemma {:induction false} CollectorUnobservable(m: map<Key, Cached>, full: map<Key, Cached>,
                                                 cs: seq<Section>, ttl: int, now: int)
    requires Agree(m, full, now) && Chronological(now, cs)
    ensures ServeAll(m, cs, ttl, true) == ServeAll(full, cs, ttl, false)
    decreases |cs|
  {
    if cs != [] {
      AgreeAfterSection(m, full, cs[0], ttl, now);
      CollectorUnobservable(Serve(m, cs[0], ttl, true).0, Serve(full, cs[0], ttl, false).0,
                            cs[1..], ttl, cs[0].finished);
    }
  }

  /** A second submit of a success, any time up to its expiry and whatever other keys
      were served in between, gets the first answer and makes no upstream call. */
  lemma {:induction false} ResubmitGetsFirstAnswer(m: map<Key, Cached>, between: seq<Section>, again: Section,
                                                   r: Response, expires: int, ttl: int, now: int)
    requires again.key in m && m[again.key] == Cached(again.fingerprint, Some(r), expires)
    requires Chronological(now, between + [again]) && again.checked <= expires
    requires forall i :: 0 <= i < |between| ==> between[i].key != again.key
    ensures ServeAll(m, between + [again], ttl, true)[|between|] == Outcome(Some(r), false)
    decreases |between|
  {
    if between == [] {
      assert between + [again] == [again];
      assert again.key in Collect(m, again.entered, again.spared);
      assert ServeAll(m, [again], ttl, true) == [Serve(m, again, ttl, true).1] + [];
    } else {
      var all := between + [again];
      assert all[1..] == between[1..] + [again];
      ChronologicalBefore(now, between, again);
      var m' := Serve(m, between[0], ttl, true).0;
      assert m'[again.key] == m[again.key];
      ResubmitGetsFirstAnswer(m', between[1..], again, r, expires, ttl, between[0].finished);
    }
  }

  lemma {:induction false} ChronologicalBefore(now: int, between: seq<Section>, again: Section)
    requires Chronological(now, between + [again])
    ensures now <= again.entered <= again.checked
    ensures between != [] ==> now <= between[0].entered <= between[0].finished <= again.entered
    decreases |between|
  {
    if between != [] {
      assert (between + [again])[1..] == between[1..] + [again];
      ChronologicalBefore(between[0].finished, between[1..], again);
    } else {
      assert (between + [again])[0] == again;
    }
  }

  // ---------------------------------------------------------------------------
  // What a section may answer from
  // ---------------------------------------------------------------------------

  /** A section is answered without an upstream call exactly when its key has a response for its
      own fingerprint that has not expired; then by that response, otherwise by its own call. */
  lemma AnsweredByItsOwn(m: map<Key, Cached>, c: Section, ttl: int, collecting: bool)
    requires c.InOrder()
    ensures var o := Serve(m, c, ttl, collecting).1;
      !o.called <==> c.key in m && m[c.key].response.Some? && m[c.key].fingerprint == c.fingerprint &&
                     c.checked <= m[c.key].expires
    ensures var o := Serve(m, c, ttl, collecting).1;
      if o.called then o.reply == c.upstream else c.key in m && o.reply == m[c.key].response
  {
  }

  /** An entry stays as it is, or goes when its response has expired and nobody holds it; the
      section's own one is made if need be, and rewritten by a success of its call only. */
  lemma TableAfterwards(m: map<Key, Cached>, c: Section, ttl: int, collecting: bool, k: Key)
    ensures var stays := k in m && (!collecting || k in c.spared || m[k].response.None? || c.entered <= m[k].expires);
      var (after, o) := Serve(m, c, ttl, collecting);
      && (k in after <==> stays || k == c.key)
      && (k != c.key && stays ==> after[k] == m[k])
      && (k == c.key ==>
            after[k] == if o.called && c.upstream.Some? then Cached(c.fingerprint, c.upstream, c.finished + ttl)
                        else if stays then m[k] else EMPTY)
  {
  }

  /** A section with what its client was told. */
  datatype Served = Served(section: Section, outcome: Outcome)

  function History(m: map<Key, Cached>, cs: seq<Section>, ttl: int, collecting: bool): (h: seq<Served>)
    ensures |h| == |cs|
  {
    var os := ServeAll(m, cs, ttl, collecting);
    seq(|cs|, i requires 0 <= i < |cs| => Served(cs[i], os[i]))
  }

  /** One section's call earned the response, for the same key and fingerprint, that another is
      answered with no later than the time to live after it. */
  predicate Earns(a: Served, b: Served, ttl: int) {
    && a.section.key == b.section.key && a.section.fingerprint == b.section.fingerprint
    && a.outcome.called && a.outcome.reply.Some? && a.outcome.reply == b.outcome.reply
    && b.section.checked <= a.section.finished + ttl
  }

  /** Every response in the table was earned by a section that has passed. */
  ghost predicate AllEarned(m: map<Key, Cached>, past: seq<Served>, ttl: int) {
    forall k :: k in m && m[k].response.Some? ==> EarnedEntry(k, m[k], past, ttl)
  }

  ghost predicate EarnedEntry(k: Key, e: Cached, past: seq<Served>, ttl: int) {
    exists j :: 0 <= j < |past| && past[j].section.key == k && past[j].section.fingerprint == e.fingerprint &&
      past[j].outcome == Outcome(e.response, true) && e.expires == past[j].section.finished + ttl
  }

  lemma SectionEarns(m: map<Key, Cached>, past: seq<Served>, c: Section, ttl: int, collecting: bool)
    requires AllEarned(m, past, ttl) && c.InOrder()
    ensures var (after, o) := Serve(m, c, ttl, collecting); AllEarned(after, past + [Served(c, o)], ttl)
  {
    var (after, o) := Serve(m, c, ttl, collecting);
    var more := past + [Served(c, o)];
    forall k | k in after && after[k].response.Some?
      ensures EarnedEntry(k, after[k], more, ttl)
    {
      TableAfterwards(m, c, ttl, collecting, k);
      if k == c.key && o.called && c.upstream.Some? {
        assert more[|past|] == Served(c, o);
      } else {
        var j :| 0 <= j < |past| && past[j].section.key == k && past[j].section.fingerprint == m[k].fingerprint &&
          past[j].outcome == Outcome(m[k].response, true) && m[k].expires == past[j].section.finished + ttl;
        assert more[j] == past[j];
      }
    }
  }

  lemma EntryEarns(m: map<Key, Cached>, past: seq<Served>, c: Section, ttl: int, collecting: bool) returns (j: nat)
    requires AllEarned(m, past, ttl) && c.InOrder() && !Serve(m, c, ttl, collecting).1.called
    ensures j < |past| && Earns(past[j], Served(c, Serve(m, c, ttl, collecting).1), ttl)
  {
    AnsweredByItsOwn(m, c, ttl, collecting);
    assert EarnedEntry(c.key, m[c.key], past, ttl);
    j :| 0 <= j < |past| && past[j].section.key == c.key &&
      past[j].section.fingerprint == m[c.key].fingerprint &&
      past[j].outcome == Outcome(m[c.key].response, true) && m[c.key].expires == past[j].section.finished + ttl;
  }

  lemma {:induction false} AnswersAreEarnedFrom(m: map<Key, Cached>, past: seq<Served>, cs: seq<Section>, ttl: int,
                                                collecting: bool, i: nat) returns (j: nat)
    requires AllEarned(m, past, ttl) && i < |cs| && forall k :: 0 <= k < |cs| ==> cs[k].InOrder()
    requires !History(m, cs, ttl, collecting)[i].outcome.called
    ensures j < |past| + i
    ensures var h := past + History(m, cs, ttl, collecting); Earns(h[j], h[|past| + i], ttl)
    decreases |cs|
  {
    var (m', o) := Serve(m, cs[0], ttl, collecting);
    if i == 0 {
      j := EntryEarns(m, past, cs[0], ttl, collecting);
    } else {
      SectionEarns(m, past, cs[0], ttl, collecting);
      assert past + History(m, cs, ttl, collecting) == past + [Served(cs[0], o)] + History(m', cs[1..], ttl, collecting);
      j := AnswersAreEarnedFrom(m', past + [Served(cs[0], o)], cs[1..], ttl, collecting, i - 1);
    }
  }

  lemma NothingBefore(h: seq<Served>, i: nat, j: nat, ttl: int)
    requires j < i < |h| && Earns(([] + h)[j], ([] + h)[i], ttl)
    ensures Earns(h[j], h[i], ttl)
  {
    assert [] + h == h;
  }

  /** Over every sequence of sections from a table without responses, collected or not: whoever is
      answered without a call gets the success of an earlier call for the same key and the same
      fingerprint, at most one time to live old. */
  lemma AnswersAreEarned(m: map<Key, Cached>, cs: seq<Section>, ttl: int, collecting: bool, i: nat) returns (j: nat)
    requires forall k :: k in m ==> m[k].response.None?
    requires i < |cs| && forall k :: 0 <= k < |cs| ==> cs[k].InOrder()
    requires !History(m, cs, ttl, collecting)[i].outcome.called
    ensures j < i && Earns(History(m, cs, ttl, collecting)[j], History(m, cs, ttl, collecting)[i], ttl)
  {
    var h := History(m, cs, ttl, collecting);
    j := AnswersAreEarnedFrom(m, [], cs, ttl, collecting, i);
    NothingBefore(h, i, j, ttl);
  }

  // ---------------------------------------------------------------------------
  // The gate itself
  // ---------------------------------------------------------------------------

  class Entry {
    var locked: bool
    var fingerprint: Fingerprint
    var response: Option<Response>
    var expires: int

    constructor ()
      ensures !locked && Value() == EMPTY
    {
      locked, fingerprint, response, expires := false, "", None, 0;
    }

    function Value(): Cached
      reads this
    {
      Cached(fingerprint, response, expires)
    }

    /** The response, to its own fingerprint and until its expiry only. */
    method Hit(f: Fingerprint, now: int) returns (r: Option<Response>)
      ensures r == Answer(Value(), f, now)
      ensures r.Some? <==> response.Some? && fingerprint == f && now <= expires
      ensures r.Some? ==> r == response
    {
      if response.None? || fingerprint != f || now > expires {
        return None;
      }
      return response;
    }
  }

  class Gate {
    var entries: map<Key, Entry>
    const ttl: int

    constructor (ttl: int)
      ensures Valid() && Held() == {} && View() == map[] && this.ttl == ttl
    {
      this.ttl := ttl;
      entries := map[];
    }

    /** Different keys never share an entry. */
    ghost predicate Valid()
      reads this
    {
      forall k, j :: k in entries && j in entries && k != j ==> entries[k] != entries[j]
    }

    /** The keys whose entries somebody holds. */
    function Held(): set<Key>
      reads this, entries.Values
    {
      set k | k in entries && entries[k].locked
    }

    ghost function View(): map<Key, Cached>
      reads this, entries.Values
    {
      map k | k in entries :: entries[k].Value()
    }

    /** The table holds exactly these keys and values. */
    ghost predicate Shows(m: map<Key, Cached>)
      reads this, entries.Values
    {
      entries.Keys == m.Keys && forall k :: k in m ==> entries[k].Value() == m[k]
    }

    /** Deletes the expired entries nobody holds, in any order; a held one is left alone. */
    method GcLocked(now: int)
      requires Valid()
      modifies this`entries
      ensures Valid()
      ensures forall k :: k in entries ==> k in old(entries) && entries[k] == old(entries)[k]
      ensures Held() == old(Held()) && Shows(Collect(old(View()), now, old(Held())))
    {
      var all := entries;
      var todo := entries.Keys;
      while todo != {}
        invariant todo <= all.Keys
        invariant Valid()
        invariant forall k :: k in entries <==>
          k in all && (k in todo || all[k].locked || !Expired(all[k].Value(), now))
        invariant forall k :: k in entries ==> entries[k] == all[k]
        decreases |todo|
      {
        var k :| k in todo;
        todo := todo - {k};
        var e := all[k];
        if e.locked {
          continue;
        }
        var expired := e.response.Some? && e.expires < now;
        if expired {
          entries := entries - {k};
        }
      }
    }

    /** The part of acquire under the table's mutex: collect, then find or create. */
    method Find(key: Key, now: int) returns (e: Entry)
      requires Valid()
      modifies this`entries
      ensures Valid() && Held() == old(Held()) && key in entries && entries[key] == e
      ensures var kept := Collect(old(View()), now, old(Held())); Shows(kept[key := At(kept, key)])
      ensures e in old(entries.Values) || fresh(e)
    {
      ghost var kept := Collect(View(), now, Held());
      GcLocked(now);
      assert View() == kept;
      e := LookUp(key);
    }

    method LookUp(key: Key) returns (e: Entry)
      requires Valid()
      modifies this`entries
      ensures Valid()
      ensures key in entries && entries[key] == e && (e in old(entries.Values) || fresh(e))
      ensures Held() == old(Held()) && Shows(old(View())[key := At(old(View()), key)])
    {
      if key in entries {
        e := entries[key];
      } else {
        e := new Entry();
        entries := entries[key := e];
      }
    }

    /** Takes the mutex of an entry that is free; what the table shows stays. */
    method Lock(key: Key, e: Entry)
      requires Valid() && key in entries && entries[key] == e && !e.locked
      modifies e`locked
      ensures Valid() && Held() == old(Held()) + {key}
      ensures forall k :: k in entries ==> entries[k].Value() == old(entries[k].Value())
    {
      e.locked := true;
    }

    /** Finds or creates the entry of a key and takes its mutex, whatever other entries are
        held. The entry's own mutex has to be free for the call to return. */
    method Acquire(key: Key, now: int) returns (e: Entry)
      requires Valid() && key !in Held()
      modifies this`entries, entries.Values
      ensures Valid() && key in entries && entries[key] == e && Held() == old(Held()) + {key}
      ensures var kept := Collect(old(View()), now, old(Held())); Shows(kept[key := At(kept, key)])
      ensures e in old(entries.Values) || fresh(e)
    {
      e := Find(key, now);
      assert key !in Held();
      Lock(key, e);
    }

    method Release(e: Entry)
      requires e.locked
      modifies e`locked
      ensures !e.locked
    {
      e.locked := false;
    }

    method Cache(e: Entry, f: Fingerprint, r: Response, now: int)
      requires e.locked
      modifies e`fingerprint, e`response, e`expires
      ensures e.Value() == Cached(f, Some(r), now + ttl)
    {
      e.fingerprint := f;
      e.response := Some(r);
      e.expires := now + ttl;
    }

    /** A handler between acquire and its deferred release: answer from the cache, or
        call the upstream once and cache a success only. */
    method Inside(e: Entry, c: Section) returns (o: Outcome)
      requires e.locked
      modifies e
      ensures !e.locked
      ensures o == Decide(old(e.Value()), c)
      ensures e.Value() == Settle(old(e.Value()), c, ttl)
    {
      var cached := e.Hit(c.fingerprint, c.checked);
      if cached.Some? {
        o := Outcome(cached, false);
      } else if c.upstream.None? {
        o := Outcome(None, true);
      } else {
        Cache(e, c.fingerprint, c.upstream.value, c.finished);
        o := Outcome(c.upstream, true);
      }
      Release(e);
    }

    /** The same seen from the gate: no other entry is touched, and the key's own is let go. */
    method InsideFor(key: Key, e: Entry, c: Section) returns (o: Outcome)
      requires Valid() && key in entries && entries[key] == e && e.locked
      modifies e
      ensures Valid() && Held() == old(Held()) - {key}
      ensures o == Decide(old(e.Value()), c) && e.Value() == Settle(old(e.Value()), c, ttl)
      ensures forall k :: k in entries && k != key ==> entries[k].Value() == old(entries[k].Value())
    {
      o := Inside(e, c);
    }

    /** A whole section, while others may be inside for other keys: what the table and the
        client see is the section's specification, and nobody else's entry is touched. */
    method Handle(c: Section) returns (o: Outcome)
      requires Valid() && c.key !in Held()
      modifies this`entries, entries.Values
      ensures Valid() && Held() == old(Held())
      ensures var (after, outcome) := Serve(old(View()), c.(spared := old(Held())), ttl, true);
        Shows(after) && o == outcome
    {
      ghost var kept := Collect(View(), c.entered, Held());
      var e := Acquire(c.key, c.entered);
      assert e.Value() == At(kept, c.key);
      o := InsideFor(c.key, e, c);
    }
  }
}
