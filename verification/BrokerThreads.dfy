/** The publish/subscribe broker under threads (pkg/pubsub/pubsub.go:17-63).

    A publisher holds the read lock while it walks its topic's channels, one step for each, so
    several may be at it together; the write lock makes Subscribe, Unsubscribe and Shutdown
    single steps, taken while nobody publishes. A message is known by its number in the order
    in which the calls of Publish entered; what it says does not matter. */
module BrokerThreads {
  import opened Prelude

  type Topic = int
  type Tid = int
  type ChanId = int
  type MessageId = int

  /** buffer and closes are the channel; the rest is its history: the number of messages there
      were when it was made, the messages somebody tried to put into it, those taken out of
      it, and whether somebody sent on it when it was closed. */
  datatype Chan = Chan(topic: Topic, buffer: Option<MessageId>, closes: nat,
                       since: nat, attempts: seq<MessageId>, received: seq<MessageId>, broken: bool)
  {
    /** What has come through, or is about to. */
    function Delivered(): seq<MessageId> {
      if buffer.Some? then received + [buffer.value] else received
    }
  }

  datatype Publisher = Publisher(message: MessageId, topic: Topic, rest: seq<ChanId>)

  /** log is the topic of every message so far; overlaps has (x, y) when the call for x entered
      while the one for y was at work. */
  datatype World = World(topics: map<Topic, seq<ChanId>>, chans: seq<Chan>, publishers: map<Tid, Publisher>,
                         log: seq<Topic>, overlaps: set<(MessageId, MessageId)>)
  {
    function Subscribers(topic: Topic): seq<ChanId> {
      if topic in topics then topics[topic] else []
    }

    ghost predicate Lists(topic: Topic, c: ChanId) {
      c in Subscribers(topic)
    }
  }

  datatype Step =
    | Subscribe(topic: Topic)
    | EnterPublish(t: Tid, topic: Topic)
    | Send(t: Tid)
    | LeavePublish(t: Tid)
    | Unsubscribe(topic: Topic, c: ChanId)
    | Shutdown
    | Receive(c: ChanId)

  /** When a step can be taken. The bound on a send holds by itself, see SendIsDue. */
  ghost predicate Enabled(w: World, s: Step) {
    match s
    case Subscribe(_) => w.publishers == map[]
    case EnterPublish(t, _) => t !in w.publishers
    case Send(t) => t in w.publishers && w.publishers[t].rest != [] && 0 <= w.publishers[t].rest[0] < |w.chans|
    case LeavePublish(t) => t in w.publishers && w.publishers[t].rest == []
    case Unsubscribe(_, c) => w.publishers == map[] && 0 <= c < |w.chans|
    case Shutdown => w.publishers == map[]
    case Receive(c) => 0 <= c < |w.chans| && w.chans[c].buffer.Some?
  }

  /** A non-blocking send: into the buffer, or nowhere when the buffer is full. */
  function Sent(ch: Chan, m: MessageId): Chan {
    ch.(buffer := if ch.buffer.Some? then ch.buffer else Some(m),
        attempts := ch.attempts + [m],
        broken := ch.broken || ch.closes > 0)
  }

  function Closed(ch: Chan, times: nat): Chan {
    ch.(closes := ch.closes + times)
  }

  function IndexOf(list: seq<ChanId>, c: ChanId): (i: nat)
    requires c in list
    ensures i < |list| && list[i] == c
  {
    if list[0] == c then 0 else 1 + IndexOf(list[1..], c)
  }

  /** How often a shutdown closes a channel: once for every place it is listed at. */
  ghost function Places(topics: map<Topic, seq<ChanId>>, c: ChanId): nat {
    |set topic, i | topic in topics && 0 <= i < |topics[topic]| && topics[topic][i] == c :: (topic, i)|
  }

  ghost function Next(w: World, s: Step): World
    requires Enabled(w, s)
  {
    match s
    case Subscribe(topic) =>
      w.(topics := w.topics[topic := w.Subscribers(topic) + [|w.chans|]],
         chans := w.chans + [Chan(topic, None, 0, |w.log|, [], [], false)])
    case EnterPublish(t, topic) =>
      w.(publishers := w.publishers[t := Publisher(|w.log|, topic, w.Subscribers(topic))],
         log := w.log + [topic],
         overlaps := w.overlaps + set u | u in w.publishers :: (|w.log|, w.publishers[u].message))
    case Send(t) =>
      var p := w.publishers[t];
      w.(publishers := w.publishers[t := p.(rest := p.rest[1..])],
         chans := w.chans[p.rest[0] := Sent(w.chans[p.rest[0]], p.message)])
    case LeavePublish(t) =>
      w.(publishers := w.publishers - {t})
    case Unsubscribe(topic, c) =>
      if w.Lists(topic, c) then
        var i := IndexOf(w.Subscribers(topic), c);
        w.(topics := w.topics[topic := w.topics[topic][..i] + w.topics[topic][i + 1..]],
           chans := w.chans[c := Closed(w.chans[c], 1)])
      else w
    case Shutdown =>
      w.(topics := map[],
         chans := seq(|w.chans|, c requires 0 <= c < |w.chans| => Closed(w.chans[c], Places(w.topics, c))))
    case Receive(c) =>
      var ch := w.chans[c];
      w.(chans := w.chans[c := ch.(buffer := None, received := ch.received + [ch.buffer.value])])
  }

  // ---------------------------------------------------------------------------
  // What every step keeps
  // ---------------------------------------------------------------------------

  /** Listed channels are open and listed once, under their own topic. */
  ghost predicate ListsAreSound(topics: map<Topic, seq<ChanId>>, chans: seq<Chan>) {
    forall topic :: topic in topics ==> ListIsSound(topic, topics[topic], chans)
  }

  ghost predicate ListIsSound(topic: Topic, list: seq<ChanId>, chans: seq<Chan>) {
    (forall i :: 0 <= i < |list| ==> IsOpenOn(topic, list[i], chans)) && NoDup(list)
  }

  ghost predicate IsOpenOn(topic: Topic, c: ChanId, chans: seq<Chan>) {
    0 <= c < |chans| && chans[c].topic == topic && chans[c].closes == 0
  }

  /** Deliveries skip attempts but do not reorder or repeat them. */
  ghost predicate Subsequence(a: seq<MessageId>, b: seq<MessageId>) {
    if a == [] then true
    else if b == [] then false
    else (a[|a| - 1] == b[|b| - 1] && Subsequence(a[..|a| - 1], b[..|b| - 1])) || Subsequence(a, b[..|b| - 1])
  }

  /** Messages are in the order in which they were published, unless the calls that published
      them overlapped. */
  ghost predicate InOrder(overlaps: set<(MessageId, MessageId)>, ms: seq<MessageId>) {
    ms == [] || (NoneIsAhead(overlaps, ms[..|ms| - 1], ms[|ms| - 1]) && InOrder(overlaps, ms[..|ms| - 1]))
  }

  ghost predicate NoneIsAhead(overlaps: set<(MessageId, MessageId)>, ms: seq<MessageId>, m: MessageId) {
    forall i :: 0 <= i < |ms| ==> ms[i] < m || (ms[i], m) in overlaps
  }

  /** Messages of a topic from a certain one on, none of them twice. */
  ghost predicate Proper(log: seq<Topic>, topic: Topic, since: nat, ms: seq<MessageId>) {
    (forall i :: 0 <= i < |ms| ==> since <= ms[i] < |log| && log[ms[i]] == topic) && NoDup(ms)
  }

  /** A channel is closed once at most and never sent on after; what it delivers is what was
      tried on it, in order and with gaps; and what was tried on it are messages of its topic
      that were published after it was made, each once and in order. */
  ghost predicate ChanIsSound(ch: Chan, log: seq<Topic>, overlaps: set<(MessageId, MessageId)>) {
    && ch.closes <= 1 && !ch.broken
    && Subsequence(ch.Delivered(), ch.attempts)
    && ch.since <= |log| && Proper(log, ch.topic, ch.since, ch.attempts)
    && InOrder(overlaps, ch.attempts)
  }

  ghost predicate ChansAreSound(chans: seq<Chan>, log: seq<Topic>, overlaps: set<(MessageId, MessageId)>) {
    forall c :: 0 <= c < |chans| ==> ChanIsSound(chans[c], log, overlaps)
  }

  /** A publisher has a tail of its topic's list before it, all of it untried. */
  ghost predicate PublisherIsSound(p: Publisher, subscribers: seq<ChanId>, chans: seq<Chan>, log: seq<Topic>) {
    && 0 <= p.message < |log| && log[p.message] == p.topic
    && |p.rest| <= |subscribers| && p.rest == subscribers[|subscribers| - |p.rest|..]
    && (forall i :: 0 <= i < |p.rest| ==> IsUntried(p.message, p.rest[i], chans))
  }

  ghost predicate IsUntried(m: MessageId, c: ChanId, chans: seq<Chan>) {
    0 <= c < |chans| && m !in chans[c].attempts && chans[c].since <= m
  }

  ghost predicate PublishersAreSound(w: World) {
    forall t :: t in w.publishers ==>
      PublisherIsSound(w.publishers[t], w.Subscribers(w.publishers[t].topic), w.chans, w.log)
  }

  ghost predicate MessagesDiffer(publishers: map<Tid, Publisher>) {
    forall t, u :: t in publishers && u in publishers && publishers[t].message == publishers[u].message ==> t == u
  }

  /** Whoever is at work has been so since before any later message entered. */
  ghost predicate OverlapsAreRecorded(publishers: map<Tid, Publisher>, n: nat, overlaps: set<(MessageId, MessageId)>) {
    forall t, x: MessageId :: t in publishers && publishers[t].message < x < n ==> (x, publishers[t].message) in overlaps
  }

  /** A listed channel is tried by every message of its topic since it was made, but for those
      whose publisher has yet to reach it. */
  ghost predicate NoneIsSkipped(w: World) {
    forall topic, i, m :: topic in w.topics && 0 <= i < |w.topics[topic]| && 0 <= m < |w.log| ==>
      Reaches(w, topic, w.topics[topic][i], m)
  }

  ghost predicate Reaches(w: World, topic: Topic, c: ChanId, m: nat)
    requires m < |w.log|
  {
    0 <= c < |w.chans| && w.chans[c].since <= m && w.log[m] == topic ==>
      m in w.chans[c].attempts || StillToCome(w.publishers, c, m)
  }

  ghost predicate StillToCome(publishers: map<Tid, Publisher>, c: ChanId, m: MessageId) {
    exists t :: t in publishers && publishers[t].message == m && c in publishers[t].rest
  }

  ghost predicate Inv(w: World) {
    && ListsAreSound(w.topics, w.chans)
    && ChansAreSound(w.chans, w.log, w.overlaps)
    && PublishersAreSound(w) && MessagesDiffer(w.publishers)
    && OverlapsAreRecorded(w.publishers, |w.log|, w.overlaps)
    && NoneIsSkipped(w)
  }

  function Start(): World {
    World(map[], [], map[], [], {})
  }

  lemma StartInv()
    ensures Inv(Start())
  {
  }

  // Subscribe

  lemma SubscribeKeeps(w: World, topic: Topic)
    requires Inv(w) && Enabled(w, Subscribe(topic))
    ensures Inv(Next(w, Subscribe(topic)))
  {
    SubscribeLists(w, topic);
    SubscribeChans(w, topic);
    SubscribeSkipsNone(w, topic);
  }

  lemma SubscribeLists(w: World, topic: Topic)
    requires ListsAreSound(w.topics, w.chans) && Enabled(w, Subscribe(topic))
    ensures ListsAreSound(Next(w, Subscribe(topic)).topics, Next(w, Subscribe(topic)).chans)
  {
    var w' := Next(w, Subscribe(topic));
    forall other | other in w'.topics
      ensures ListIsSound(other, w'.topics[other], w'.chans)
    {
      if other in w.topics {
        ListIsStillSound(other, w.topics[other], w.chans, w'.chans);
      }
      if other == topic {
        ListExtended(topic, w.Subscribers(topic), |w.chans|, w'.chans);
      }
    }
  }

  lemma SubscribeChans(w: World, topic: Topic)
    requires ChansAreSound(w.chans, w.log, w.overlaps) && Enabled(w, Subscribe(topic))
    ensures ChansAreSound(Next(w, Subscribe(topic)).chans, w.log, w.overlaps)
  {
  }

  lemma SubscribeSkipsNone(w: World, topic: Topic)
    requires ListsAreSound(w.topics, w.chans) && NoneIsSkipped(w) && Enabled(w, Subscribe(topic))
    ensures NoneIsSkipped(Next(w, Subscribe(topic)))
  {
    var w' := Next(w, Subscribe(topic));
    forall other, i, m | other in w'.topics && 0 <= i < |w'.topics[other]| && 0 <= m < |w'.log|
      ensures Reaches(w', other, w'.topics[other][i], m)
    {
      if other in w.topics && i < |w.topics[other]| {
        assert Reaches(w, other, w.topics[other][i], m);
        assert IsOpenOn(other, w.topics[other][i], w.chans);
      }
    }
  }

  lemma ListIsStillSound(topic: Topic, list: seq<ChanId>, chans: seq<Chan>, chans': seq<Chan>)
    requires ListIsSound(topic, list, chans)
    requires |chans| <= |chans'|
    requires forall c :: 0 <= c < |chans| && c in list ==>
      chans'[c].topic == chans[c].topic && chans'[c].closes == chans[c].closes
    ensures ListIsSound(topic, list, chans')
  {
  }

  lemma ListExtended(topic: Topic, list: seq<ChanId>, c: ChanId, chans: seq<Chan>)
    requires ListIsSound(topic, list, chans) && IsOpenOn(topic, c, chans)
    requires c !in list
    ensures ListIsSound(topic, list + [c], chans)
  {
  }

  // EnterPublish

  lemma EnterPublishKeeps(w: World, t: Tid, topic: Topic)
    requires Inv(w) && Enabled(w, EnterPublish(t, topic))
    ensures Inv(Next(w, EnterPublish(t, topic)))
  {
    EnterPublishChans(w, t, topic);
    EnterPublishPublishers(w, t, topic);
    EnterPublishSkipsNone(w, t, topic);
    EnterPublishOverlaps(w, t, topic);
    EnterPublishDiffers(w, t, topic);
  }

  lemma EnterPublishChans(w: World, t: Tid, topic: Topic)
    requires Enabled(w, EnterPublish(t, topic)) && ChansAreSound(w.chans, w.log, w.overlaps)
    ensures var w' := Next(w, EnterPublish(t, topic)); ChansAreSound(w'.chans, w'.log, w'.overlaps)
  {
    var w' := Next(w, EnterPublish(t, topic));
    forall c | 0 <= c < |w.chans|
      ensures ChanIsSound(w.chans[c], w'.log, w'.overlaps)
    {
      ChanIsStillSound(w.chans[c], w.log, w.overlaps, topic, w'.overlaps);
    }
  }

  lemma EnterPublishOverlaps(w: World, t: Tid, topic: Topic)
    requires Enabled(w, EnterPublish(t, topic)) && OverlapsAreRecorded(w.publishers, |w.log|, w.overlaps)
    ensures var w' := Next(w, EnterPublish(t, topic)); OverlapsAreRecorded(w'.publishers, |w'.log|, w'.overlaps)
  {
  }

  lemma EnterPublishPublishers(w: World, t: Tid, topic: Topic)
    requires Enabled(w, EnterPublish(t, topic))
    requires ListsAreSound(w.topics, w.chans) && ChansAreSound(w.chans, w.log, w.overlaps) && PublishersAreSound(w)
    ensures PublishersAreSound(Next(w, EnterPublish(t, topic)))
  {
    var w' := Next(w, EnterPublish(t, topic));
    forall u | u in w'.publishers
      ensures PublisherIsSound(w'.publishers[u], w'.Subscribers(w'.publishers[u].topic), w'.chans, w'.log)
    {
      if u == t {
        NewPublisher(w, topic);
      } else {
        OldPublisher(w.publishers[u], w.Subscribers(w.publishers[u].topic), w.chans, w.log, topic);
      }
    }
  }

  lemma EnterPublishDiffers(w: World, t: Tid, topic: Topic)
    requires Enabled(w, EnterPublish(t, topic)) && PublishersAreSound(w) && MessagesDiffer(w.publishers)
    ensures MessagesDiffer(Next(w, EnterPublish(t, topic)).publishers)
  {
  }

  lemma OldPublisher(p: Publisher, subscribers: seq<ChanId>, chans: seq<Chan>, log: seq<Topic>, topic: Topic)
    requires PublisherIsSound(p, subscribers, chans, log)
    ensures PublisherIsSound(p, subscribers, chans, log + [topic]) && p.message != |log|
  {
  }

  lemma EnterPublishSkipsNone(w: World, t: Tid, topic: Topic)
    requires Enabled(w, EnterPublish(t, topic)) && NoneIsSkipped(w)
    ensures NoneIsSkipped(Next(w, EnterPublish(t, topic)))
  {
    var w' := Next(w, EnterPublish(t, topic));
    forall other, i, m | other in w'.topics && 0 <= i < |w'.topics[other]| && 0 <= m < |w'.log|
      ensures Reaches(w', other, w'.topics[other][i], m)
    {
      if m < |w.log| {
        assert Reaches(w, other, w.topics[other][i], m);
      }
      ReachesAfterEntering(w, t, topic, other, w.topics[other][i], m);
    }
  }

  lemma ReachesAfterEntering(w: World, t: Tid, topic: Topic, other: Topic, c: ChanId, m: nat)
    requires Enabled(w, EnterPublish(t, topic)) && m <= |w.log| && w.Lists(other, c)
    requires m < |w.log| ==> Reaches(w, other, c, m)
    ensures Reaches(Next(w, EnterPublish(t, topic)), other, c, m)
  {
    var w' := Next(w, EnterPublish(t, topic));
    if m < |w.log| {
      if StillToCome(w.publishers, c, m) {
        var u :| u in w.publishers && w.publishers[u].message == m && c in w.publishers[u].rest;
        assert u in w'.publishers && w'.publishers[u].message == m && c in w'.publishers[u].rest;
      }
    } else if other == topic {
      assert t in w'.publishers && w'.publishers[t].message == m && c in w'.publishers[t].rest;
    }
  }

  lemma ChanIsStillSound(ch: Chan, log: seq<Topic>, overlaps: set<(MessageId, MessageId)>,
                         topic: Topic, overlaps': set<(MessageId, MessageId)>)
    requires ChanIsSound(ch, log, overlaps) && overlaps <= overlaps'
    ensures ChanIsSound(ch, log + [topic], overlaps')
  {
    InOrderAmongMore(overlaps, overlaps', ch.attempts);
  }

  lemma {:induction false} InOrderAmongMore(overlaps: set<(MessageId, MessageId)>, overlaps': set<(MessageId, MessageId)>,
                                           ms: seq<MessageId>)
    requires InOrder(overlaps, ms) && overlaps <= overlaps'
    ensures InOrder(overlaps', ms)
    decreases |ms|
  {
    if ms != [] {
      InOrderAmongMore(overlaps, overlaps', ms[..|ms| - 1]);
    }
  }

  lemma NewPublisher(w: World, topic: Topic)
    requires ListsAreSound(w.topics, w.chans) && ChansAreSound(w.chans, w.log, w.overlaps)
    ensures PublisherIsSound(Publisher(|w.log|, topic, w.Subscribers(topic)), w.Subscribers(topic),
                             w.chans, w.log + [topic])
  {
  }

  // Send

  lemma SendKeeps(w: World, t: Tid)
    requires Inv(w) && Enabled(w, Send(t))
    ensures Inv(Next(w, Send(t)))
  {
    SendLists(w, t);
    SendChans(w, t);
    SendPublishers(w, t);
    SendSkipsNone(w, t);
  }

  lemma SendLists(w: World, t: Tid)
    requires Enabled(w, Send(t)) && ListsAreSound(w.topics, w.chans)
    ensures ListsAreSound(Next(w, Send(t)).topics, Next(w, Send(t)).chans)
  {
    forall topic | topic in w.topics
      ensures ListIsSound(topic, w.topics[topic], Next(w, Send(t)).chans)
    {
      ListIsStillSound(topic, w.topics[topic], w.chans, Next(w, Send(t)).chans);
    }
  }

  lemma SendChans(w: World, t: Tid)
    requires Enabled(w, Send(t)) && ListsAreSound(w.topics, w.chans) && PublishersAreSound(w)
    requires ChansAreSound(w.chans, w.log, w.overlaps) && OverlapsAreRecorded(w.publishers, |w.log|, w.overlaps)
    ensures ChansAreSound(Next(w, Send(t)).chans, w.log, w.overlaps)
  {
    var p := w.publishers[t];
    var c, list := p.rest[0], w.Subscribers(p.topic);
    assert PublisherIsSound(p, list, w.chans, w.log);
    assert list[|list| - |p.rest|] == c;
    assert IsOpenOn(p.topic, c, w.chans);
    assert IsUntried(p.message, c, w.chans);
    SentIsSound(w.chans[c], w.log, w.overlaps, p, w.publishers, t);
  }

  lemma SendPublishers(w: World, t: Tid)
    requires Enabled(w, Send(t)) && ListsAreSound(w.topics, w.chans)
    requires PublishersAreSound(w) && MessagesDiffer(w.publishers)
    ensures PublishersAreSound(Next(w, Send(t)))
  {
    var w' := Next(w, Send(t));
    forall u | u in w'.publishers
      ensures PublisherIsSound(w'.publishers[u], w'.Subscribers(w'.publishers[u].topic), w'.chans, w'.log)
    {
      var topic := w.publishers[u].topic;
      if topic in w.topics {
        assert ListIsSound(topic, w.topics[topic], w.chans);
      }
      if u == t {
        SenderIsStillSound(w.publishers[t], w.Subscribers(topic), w.chans, w.log);
      } else {
        OtherIsStillSound(w.publishers[u], w.Subscribers(topic), w.chans, w.log,
                          w.publishers[t].rest[0], w.publishers[t].message);
      }
    }
  }

  lemma SendSkipsNone(w: World, t: Tid)
    requires Enabled(w, Send(t)) && NoneIsSkipped(w)
    ensures NoneIsSkipped(Next(w, Send(t)))
  {
    var w' := Next(w, Send(t));
    forall topic, i, m | topic in w'.topics && 0 <= i < |w'.topics[topic]| && 0 <= m < |w'.log|
      ensures Reaches(w', topic, w'.topics[topic][i], m)
    {
      assert Reaches(w, topic, w.topics[topic][i], m);
      StillReaches(w, t, topic, w.topics[topic][i], m);
    }
  }

  lemma SentIsSound(ch: Chan, log: seq<Topic>, overlaps: set<(MessageId, MessageId)>, p: Publisher,
                    publishers: map<Tid, Publisher>, t: Tid)
    requires ChanIsSound(ch, log, overlaps) && ch.closes == 0
    requires 0 <= p.message < |log| && log[p.message] == p.topic == ch.topic
    requires p.message !in ch.attempts && ch.since <= p.message
    requires t in publishers && publishers[t] == p && OverlapsAreRecorded(publishers, |log|, overlaps)
    ensures ChanIsSound(Sent(ch, p.message), log, overlaps)
  {
  }

  lemma SenderIsStillSound(p: Publisher, list: seq<ChanId>, chans: seq<Chan>, log: seq<Topic>)
    requires PublisherIsSound(p, list, chans, log) && NoDup(list) && p.rest != []
    ensures var c := p.rest[0];
      PublisherIsSound(p.(rest := p.rest[1..]), list, chans[c := Sent(chans[c], p.message)], log)
  {
    var c, start := p.rest[0], |list| - |p.rest|;
    assert list[start] == c && p.rest[1..] == list[start + 1..];
    assert IsUntried(p.message, p.rest[0], chans);
    var chans' := chans[c := Sent(chans[c], p.message)];
    forall i | 0 <= i < |p.rest[1..]|
      ensures IsUntried(p.message, p.rest[1..][i], chans')
    {
      assert IsUntried(p.message, p.rest[i + 1], chans);
      NoDupAt(list, start, start + 1 + i);
    }
  }

  lemma OtherIsStillSound(p: Publisher, list: seq<ChanId>, chans: seq<Chan>, log: seq<Topic>, c: ChanId, m: MessageId)
    requires PublisherIsSound(p, list, chans, log) && 0 <= c < |chans| && m != p.message
    ensures PublisherIsSound(p, list, chans[c := Sent(chans[c], m)], log)
  {
  }

  lemma StillReaches(w: World, t: Tid, topic: Topic, c: ChanId, m: nat)
    requires Enabled(w, Send(t)) && m < |w.log| && Reaches(w, topic, c, m)
    ensures Reaches(Next(w, Send(t)), topic, c, m)
  {
    var w', p := Next(w, Send(t)), w.publishers[t];
    if StillToCome(w.publishers, c, m) {
      var u :| u in w.publishers && w.publishers[u].message == m && c in w.publishers[u].rest;
      if u == t {
        assert c == p.rest[0] || c in p.rest[1..];
      }
      assert c in w'.publishers[u].rest || c == p.rest[0];
    }
  }

  // LeavePublish

  lemma LeavePublishKeeps(w: World, t: Tid)
    requires Inv(w) && Enabled(w, LeavePublish(t))
    ensures Inv(Next(w, LeavePublish(t)))
  {
    LeavePublishPublishers(w, t);
    LeavePublishSkipsNone(w, t);
  }

  lemma LeavePublishPublishers(w: World, t: Tid)
    requires Enabled(w, LeavePublish(t)) && PublishersAreSound(w)
    ensures PublishersAreSound(Next(w, LeavePublish(t)))
  {
  }

  lemma LeavePublishSkipsNone(w: World, t: Tid)
    requires Enabled(w, LeavePublish(t)) && NoneIsSkipped(w)
    ensures NoneIsSkipped(Next(w, LeavePublish(t)))
  {
    var w' := Next(w, LeavePublish(t));
    forall topic, i, m | topic in w'.topics && 0 <= i < |w'.topics[topic]| && 0 <= m < |w'.log|
      ensures Reaches(w', topic, w'.topics[topic][i], m)
    {
      assert Reaches(w, topic, w.topics[topic][i], m);
      ReachesAfterLeaving(w, t, topic, w.topics[topic][i], m);
    }
  }

  lemma ReachesAfterLeaving(w: World, t: Tid, topic: Topic, c: ChanId, m: nat)
    requires Enabled(w, LeavePublish(t)) && m < |w.log| && Reaches(w, topic, c, m)
    ensures Reaches(Next(w, LeavePublish(t)), topic, c, m)
  {
    if StillToCome(w.publishers, c, m) {
      var u :| u in w.publishers && w.publishers[u].message == m && c in w.publishers[u].rest;
      assert u in w.publishers - {t};
    }
  }

  // Unsubscribe and Shutdown

  lemma UnsubscribeKeeps(w: World, topic: Topic, c: ChanId)
    requires Inv(w) && Enabled(w, Unsubscribe(topic, c))
    ensures Inv(Next(w, Unsubscribe(topic, c)))
  {
    var w' := Next(w, Unsubscribe(topic, c));
    if w.Lists(topic, c) {
      var list := w.topics[topic];
      var i := IndexOf(list, c);
      assert IsOpenOn(topic, list[i], w.chans);
      assert ChanIsSound(w.chans[c], w.log, w.overlaps);
      assert ChanIsSound(w'.chans[c], w'.log, w'.overlaps) by {
        assert w'.chans[c].Delivered() == w.chans[c].Delivered();
      }
      forall other | other in w'.topics
        ensures ListIsSound(other, w'.topics[other], w'.chans)
      {
        OtherListsAreStillSound(w, topic, c, other);
      }
      UnsubscribeSkipsNone(w, topic, c);
    }
  }

  lemma UnsubscribeSkipsNone(w: World, topic: Topic, c: ChanId)
    requires Enabled(w, Unsubscribe(topic, c)) && w.Lists(topic, c) && NoneIsSkipped(w)
    ensures NoneIsSkipped(Next(w, Unsubscribe(topic, c)))
  {
    var w', i := Next(w, Unsubscribe(topic, c)), IndexOf(w.topics[topic], c);
    forall other, j, m | other in w'.topics && 0 <= j < |w'.topics[other]| && 0 <= m < |w'.log|
      ensures Reaches(w', other, w'.topics[other][j], m)
    {
      var k := if other == topic && j >= i then j + 1 else j;
      assert w'.topics[other][j] == w.topics[other][k];
      assert Reaches(w, other, w.topics[other][k], m);
      ReachesAfterClosing(w, w', c, other, w.topics[other][k], m);
    }
  }

  lemma ReachesAfterClosing(w: World, w': World, closed: ChanId, topic: Topic, c: ChanId, m: nat)
    requires 0 <= closed < |w.chans| && w'.chans == w.chans[closed := Closed(w.chans[closed], 1)]
    requires w'.log == w.log && w'.publishers == w.publishers
    requires m < |w.log| && Reaches(w, topic, c, m)
    ensures Reaches(w', topic, c, m)
  {
  }

  lemma OtherListsAreStillSound(w: World, topic: Topic, c: ChanId, other: Topic)
    requires ListsAreSound(w.topics, w.chans) && Enabled(w, Unsubscribe(topic, c))
    requires w.Lists(topic, c) && other in w.topics
    ensures var w' := Next(w, Unsubscribe(topic, c)); ListIsSound(other, w'.topics[other], w'.chans)
  {
    var w', list := Next(w, Unsubscribe(topic, c)), w.topics[other];
    var i := IndexOf(w.topics[topic], c);
    assert IsOpenOn(topic, w.topics[topic][i], w.chans);
    assert ListIsSound(other, list, w.chans);
    if other == topic {
      NoDupRemove(list, i);
    }
    forall j | 0 <= j < |w'.topics[other]|
      ensures IsOpenOn(other, w'.topics[other][j], w'.chans)
    {
      var k := if other == topic && j >= i then j + 1 else j;
      assert w'.topics[other][j] == list[k];
      assert IsOpenOn(other, list[k], w.chans);
    }
  }

  lemma ShutdownKeeps(w: World)
    requires Inv(w) && Enabled(w, Shutdown)
    ensures Inv(Next(w, Shutdown))
  {
    var w' := Next(w, Shutdown);
    forall c | 0 <= c < |w'.chans|
      ensures ChanIsSound(w'.chans[c], w'.log, w'.overlaps)
    {
      ListedOnce(w, c);
      assert ChanIsSound(w.chans[c], w.log, w.overlaps);
      assert w'.chans[c].Delivered() == w.chans[c].Delivered();
    }
  }

  lemma ListedOnce(w: World, c: ChanId)
    requires ListsAreSound(w.topics, w.chans) && 0 <= c < |w.chans| && w.chans[c].closes <= 1
    ensures w.chans[c].closes + Places(w.topics, c) <= 1
  {
    var places := set topic, i | topic in w.topics && 0 <= i < |w.topics[topic]| && w.topics[topic][i] == c :: (topic, i);
    if places != {} {
      var p :| p in places;
      assert IsOpenOn(p.0, w.topics[p.0][p.1], w.chans);
      forall q | q in places
        ensures q == p
      {
        assert IsOpenOn(q.0, w.topics[q.0][q.1], w.chans);
        assert ListIsSound(p.0, w.topics[p.0], w.chans);
        if q.1 != p.1 {
          NoDupAt(w.topics[p.0], Min(p.1, q.1), Max(p.1, q.1));
        }
      }
      assert places == {p};
    }
  }

  // Receive

  lemma ReceiveKeeps(w: World, c: ChanId)
    requires Inv(w) && Enabled(w, Receive(c))
    ensures Inv(Next(w, Receive(c)))
  {
    var w' := Next(w, Receive(c));
    assert ChanIsSound(w.chans[c], w.log, w.overlaps);
    assert ChanIsSound(w'.chans[c], w.log, w.overlaps) by {
      assert w'.chans[c].Delivered() == w.chans[c].Delivered();
    }
    forall topic | topic in w'.topics
      ensures ListIsSound(topic, w'.topics[topic], w'.chans)
    {
      ListIsStillSound(topic, w.topics[topic], w.chans, w'.chans);
    }
    forall u | u in w'.publishers
      ensures PublisherIsSound(w'.publishers[u], w'.Subscribers(w'.publishers[u].topic), w'.chans, w'.log)
    {
      var p := w.publishers[u];
      assert PublisherIsSound(p, w.Subscribers(p.topic), w.chans, w.log);
      forall i | 0 <= i < |p.rest|
        ensures IsUntried(p.message, p.rest[i], w'.chans)
      {
        assert IsUntried(p.message, p.rest[i], w.chans);
      }
    }
    forall topic, i, m | topic in w'.topics && 0 <= i < |w'.topics[topic]| && 0 <= m < |w'.log|
      ensures Reaches(w', topic, w'.topics[topic][i], m)
    {
      assert Reaches(w, topic, w.topics[topic][i], m);
    }
  }

  lemma NextInv(w: World, s: Step)
    requires Inv(w) && Enabled(w, s)
    ensures Inv(Next(w, s))
  {
    match s
    case Subscribe(topic) => SubscribeKeeps(w, topic);
    case EnterPublish(t, topic) => EnterPublishKeeps(w, t, topic);
    case Send(t) => SendKeeps(w, t);
    case LeavePublish(t) => LeavePublishKeeps(w, t);
    case Unsubscribe(topic, c) => UnsubscribeKeeps(w, topic, c);
    case Shutdown => ShutdownKeeps(w);
    case Receive(c) => ReceiveKeeps(w, c);
  }

  // ---------------------------------------------------------------------------
  // Whole runs
  // ---------------------------------------------------------------------------

  ghost predicate Run(w: World, steps: seq<Step>)
    decreases |steps|
  {
    steps == [] || (Enabled(w, steps[0]) && Run(Next(w, steps[0]), steps[1..]))
  }

  ghost function After(w: World, steps: seq<Step>): World
    requires Run(w, steps)
    decreases |steps|
  {
    if steps == [] then w else After(Next(w, steps[0]), steps[1..])
  }

  lemma {:induction false} AfterInv(w: World, steps: seq<Step>)
    requires Inv(w) && Run(w, steps)
    ensures Inv(After(w, steps))
    decreases |steps|
  {
    if steps != [] {
      NextInv(w, steps[0]);
      AfterInv(Next(w, steps[0]), steps[1..]);
    }
  }

  lemma {:induction false} SubsequenceMembers(a: seq<MessageId>, b: seq<MessageId>, m: MessageId)
    requires Subsequence(a, b) && m in a
    ensures m in b
    decreases |b|
  {
    if a[|a| - 1] == b[|b| - 1] && Subsequence(a[..|a| - 1], b[..|b| - 1]) {
      if m != a[|a| - 1] {
        SubsequenceMembers(a[..|a| - 1], b[..|b| - 1], m);
      }
    } else {
      SubsequenceMembers(a, b[..|b| - 1], m);
    }
  }

  lemma {:induction false} SubsequenceIsProper(a: seq<MessageId>, b: seq<MessageId>, log: seq<Topic>, topic: Topic,
                                              since: nat, overlaps: set<(MessageId, MessageId)>)
    requires Subsequence(a, b) && Proper(log, topic, since, b) && InOrder(overlaps, b)
    ensures Proper(log, topic, since, a) && InOrder(overlaps, a)
    decreases |b|
  {
    if a != [] {
      var front, last := b[..|b| - 1], b[|b| - 1];
      if a[|a| - 1] == last && Subsequence(a[..|a| - 1], front) {
        SubsequenceIsProper(a[..|a| - 1], front, log, topic, since, overlaps);
        var mine := a[..|a| - 1];
        forall i | 0 <= i < |mine|
          ensures mine[i] in front
        {
          SubsequenceMembers(mine, front, mine[i]);
        }
      } else {
        SubsequenceIsProper(a, front, log, topic, since, overlaps);
      }
    }
  }

  lemma {:induction false} SubsequenceOfFront(a: seq<MessageId>, m: MessageId, b: seq<MessageId>)
    requires Subsequence(a + [m], b)
    ensures Subsequence(a, b)
    decreases |b|
  {
    assert (a + [m])[..|a|] == a;
    if a != [] && !(m == b[|b| - 1] && Subsequence(a, b[..|b| - 1])) {
      SubsequenceOfFront(a, m, b[..|b| - 1]);
    }
  }

  /** A subscriber has received messages of its topic published since it subscribed, none
      twice, and in the order of publishing but for messages whose publishing overlapped. */
  lemma WhatSubscribersReceive(w: World, c: ChanId)
    requires Inv(w) && 0 <= c < |w.chans|
    ensures var ch := w.chans[c];
      Proper(w.log, ch.topic, ch.since, ch.received) && InOrder(w.overlaps, ch.received)
  {
    var ch := w.chans[c];
    assert ChanIsSound(ch, w.log, w.overlaps);
    if ch.buffer.Some? {
      SubsequenceOfFront(ch.received, ch.buffer.value, ch.attempts);
    }
    SubsequenceIsProper(ch.received, ch.attempts, w.log, ch.topic, ch.since, w.overlaps);
  }

  /** A send puts the message at the end of what the channel has delivered or holds, if there is
      room, and is dropped otherwise; no other channel notices. */
  lemma WhatSendDelivers(w: World, t: Tid, c: ChanId)
    requires Enabled(w, Send(t)) && 0 <= c < |w.chans|
    ensures |Next(w, Send(t)).chans| == |w.chans|
    ensures var p, ch := w.publishers[t], w.chans[c];
      Next(w, Send(t)).chans[c].Delivered() ==
      ch.Delivered() + if c == p.rest[0] && ch.buffer == None then [p.message] else []
  {
  }

  lemma NextKeepsDelivered(w: World, s: Step, c: ChanId)
    requires Enabled(w, s) && 0 <= c < |w.chans|
    ensures c < |Next(w, s).chans| && w.chans[c].Delivered() <= Next(w, s).chans[c].Delivered()
  {
  }

  /** Whatever happens later, a message that has made it into a channel is received from it, and
      after those before it, or still waits there. */
  lemma {:induction false} DeliveredIsKept(w: World, steps: seq<Step>, c: ChanId)
    requires Run(w, steps) && 0 <= c < |w.chans|
    ensures c < |After(w, steps).chans| && w.chans[c].Delivered() <= After(w, steps).chans[c].Delivered()
    decreases |steps|
  {
    if steps != [] {
      NextKeepsDelivered(w, steps[0], c);
      DeliveredIsKept(Next(w, steps[0]), steps[1..], c);
    }
  }

  /** Nobody is at work on a message from before n, and no message from before n overlaps one from n
      on. */
  ghost predicate Apart(w: World, n: nat) {
    && n <= |w.log|
    && (forall t :: t in w.publishers ==> w.publishers[t].message >= n)
    && (forall x, y :: (x, y) in w.overlaps ==> y >= n || x < n)
  }

  lemma NextStaysApart(w: World, s: Step, n: nat)
    requires Enabled(w, s) && Apart(w, n)
    ensures Apart(Next(w, s), n)
  {
  }

  /** Only calls that were at work together overlap: what is published before a moment at which
      nobody publishes stays ahead, for every subscriber, of what is published after it. */
  lemma {:induction false} QuietSeparates(w: World, steps: seq<Step>, n: nat)
    requires Run(w, steps) && Apart(w, n)
    ensures Apart(After(w, steps), n)
    decreases |steps|
  {
    if steps != [] {
      NextStaysApart(w, steps[0], n);
      QuietSeparates(Next(w, steps[0]), steps[1..], n);
    }
  }

  lemma {:induction false} OverlapsAreOld(w: World, steps: seq<Step>)
    requires Run(w, steps) && forall x, y :: (x, y) in w.overlaps ==> x < |w.log|
    ensures forall x, y :: (x, y) in After(w, steps).overlaps ==> x < |After(w, steps).log|
    decreases |steps|
  {
    if steps != [] {
      OverlapsAreOld(Next(w, steps[0]), steps[1..]);
    }
  }

  lemma OrderedApart(w: World, later: seq<Step>, n: nat, c: ChanId, i: nat, j: nat)
    requires Inv(w) && Run(w, later) && Apart(w, n) && 0 <= c < |After(w, later).chans|
    requires var got := After(w, later).chans[c].received; i < |got| && j < |got| && got[i] < n <= got[j]
    ensures i < j
  {
    AfterInv(w, later);
    QuietSeparates(w, later, n);
    ApartMeansOrdered(After(w, later), n, c, i, j);
  }

  lemma ApartMeansOrdered(w: World, n: nat, c: ChanId, i: nat, j: nat)
    requires Inv(w) && Apart(w, n) && 0 <= c < |w.chans|
    requires var got := w.chans[c].received; i < |got| && j < |got| && got[i] < n <= got[j]
    ensures i < j
  {
    WhatSubscribersReceive(w, c);
    if j < i {
      InOrderAt(w.overlaps, w.chans[c].received, j, i);
    }
  }

  /** A subscriber receives what was published before a moment of the run at which nobody was
      publishing ahead of what was published later. */
  lemma OrderedAcrossQuiet(before: seq<Step>, later: seq<Step>, w: World, c: ChanId, i: nat, j: nat)
    requires Run(Start(), before) && w == After(Start(), before) && w.publishers == map[]
    requires Run(w, later) && 0 <= c < |After(w, later).chans|
    requires var got := After(w, later).chans[c].received; i < |got| && j < |got| && got[i] < |w.log| <= got[j]
    ensures i < j
  {
    StartInv();
    AfterInv(Start(), before);
    OverlapsAreOld(Start(), before);
    OrderedApart(w, later, |w.log|, c, i, j);
  }

  lemma {:induction false} InOrderAt(overlaps: set<(MessageId, MessageId)>, ms: seq<MessageId>, i: nat, j: nat)
    requires InOrder(overlaps, ms) && i < j < |ms|
    ensures ms[i] < ms[j] || (ms[i], ms[j]) in overlaps
    decreases |ms|
  {
    if j < |ms| - 1 {
      InOrderAt(overlaps, ms[..|ms| - 1], i, j);
    }
  }

  /** A channel is open as long as it is listed, and no longer. */
  ghost predicate OpenIsListed(w: World) {
    forall c :: 0 <= c < |w.chans| && w.chans[c].closes == 0 ==> w.Lists(w.chans[c].topic, c)
  }

  lemma ListedHasPlace(w: World, topic: Topic, c: ChanId)
    requires w.Lists(topic, c)
    ensures Places(w.topics, c) >= 1
  {
    var i :| 0 <= i < |w.topics[topic]| && w.topics[topic][i] == c;
    var places := set topic, i | topic in w.topics && 0 <= i < |w.topics[topic]| && w.topics[topic][i] == c :: (topic, i);
    assert (topic, i) in places;
  }

  lemma NextOpenIsListed(w: World, s: Step)
    requires Enabled(w, s) && OpenIsListed(w)
    ensures OpenIsListed(Next(w, s))
  {
    var w' := Next(w, s);
    forall c | 0 <= c < |w'.chans| && w'.chans[c].closes == 0
      ensures w'.Lists(w'.chans[c].topic, c)
    {
      if c == |w.chans| {
        var list := w'.topics[s.topic];
        assert list[|list| - 1] == c;
      } else {
        assert w.Lists(w.chans[c].topic, c);
        StaysListed(w, s, c);
      }
    }
  }

  lemma StaysListed(w: World, s: Step, c: ChanId)
    requires Enabled(w, s) && 0 <= c < |w.chans| && w.Lists(w.chans[c].topic, c) && Next(w, s).chans[c].closes == 0
    ensures Next(w, s).Lists(w.chans[c].topic, c)
  {
    var list := w.topics[w.chans[c].topic];
    var j :| 0 <= j < |list| && list[j] == c;
    match s
    case Unsubscribe(topic, gone) =>
      if w.Lists(topic, gone) && w.chans[c].topic == topic {
        var i := IndexOf(list, gone);
        assert j != i;
        assert (list[..i] + list[i + 1..])[if j < i then j else j - 1] == c;
      }
    case Subscribe(topic) =>
      if w.chans[c].topic == topic {
        assert (list + [|w.chans|])[j] == c;
      }
    case Shutdown => ListedHasPlace(w, w.chans[c].topic, c);
    case _ =>
  }

  lemma {:induction false} OpenIsListedAfter(w: World, steps: seq<Step>)
    requires Run(w, steps) && OpenIsListed(w)
    ensures OpenIsListed(After(w, steps))
    decreases |steps|
  {
    if steps != [] {
      NextOpenIsListed(w, steps[0]);
      OpenIsListedAfter(Next(w, steps[0]), steps[1..]);
    }
  }

  /** In any interleaving every channel is either listed, at one place, or closed, once, and nobody
      sends on a closed one. */
  lemma BrokerIsSafe(steps: seq<Step>, c: ChanId)
    requires Run(Start(), steps) && 0 <= c < |After(Start(), steps).chans|
    ensures var w := After(Start(), steps);
      && w.chans[c].closes + Places(w.topics, c) == 1 && !w.chans[c].broken
      && Proper(w.log, w.chans[c].topic, w.chans[c].since, w.chans[c].received)
      && InOrder(w.overlaps, w.chans[c].received)
  {
    var w := After(Start(), steps);
    StartInv();
    AfterInv(Start(), steps);
    OpenIsListedAfter(Start(), steps);
    assert ChanIsSound(w.chans[c], w.log, w.overlaps);
    ListedOnce(w, c);
    if w.chans[c].closes == 0 {
      ListedHasPlace(w, w.chans[c].topic, c);
    }
    WhatSubscribersReceive(w, c);
  }

  /** When nobody is publishing, a listed subscriber has been tried by exactly the messages of
      its topic since it subscribed. */
  lemma QuietMeansAllTried(steps: seq<Step>, c: ChanId, m: MessageId)
    requires Run(Start(), steps)
    requires var w := After(Start(), steps);
      w.publishers == map[] && 0 <= c < |w.chans| && w.Lists(w.chans[c].topic, c)
    ensures var w := After(Start(), steps);
      m in w.chans[c].attempts <==> w.chans[c].since <= m < |w.log| && w.log[m] == w.chans[c].topic
  {
    var w := After(Start(), steps);
    StartInv();
    AfterInv(Start(), steps);
    assert ChanIsSound(w.chans[c], w.log, w.overlaps);
    if w.chans[c].since <= m < |w.log| {
      var topic := w.chans[c].topic;
      var i :| 0 <= i < |w.topics[topic]| && w.topics[topic][i] == c;
      assert Reaches(w, topic, w.topics[topic][i], m);
    }
  }

  // ---------------------------------------------------------------------------
  // Publishers leave
  // ---------------------------------------------------------------------------

  /** The publisher's next channel exists, so the bound on a send cuts off no run. */
  lemma SendIsDue(w: World, t: Tid)
    requires PublishersAreSound(w)
    ensures Enabled(w, Send(t)) <==> t in w.publishers && w.publishers[t].rest != []
  {
    if t in w.publishers && w.publishers[t].rest != [] {
      NextExists(w.publishers[t], w.Subscribers(w.publishers[t].topic), w.chans, w.log);
    }
  }

  lemma NextExists(p: Publisher, subscribers: seq<ChanId>, chans: seq<Chan>, log: seq<Topic>)
    requires PublisherIsSound(p, subscribers, chans, log) && p.rest != []
    ensures 0 <= p.rest[0] < |chans|
  {
    assert IsUntried(p.message, p.rest[0], chans);
  }

  predicate Publishes(s: Step) {
    s.Send? || s.LeavePublish?
  }

  ghost predicate SomeoneMoves(w: World) {
    exists s :: Publishes(s) && Enabled(w, s)
  }

  /** What is before all publishers: their sends and their leaving. */
  ghost function Work(w: World): int {
    Sum(map t | t in w.publishers :: 1 + |w.publishers[t].rest|)
  }

  lemma NextWork(w: World, s: Step)
    requires Enabled(w, s) && Publishes(s)
    ensures Work(Next(w, s)) == Work(w) - 1
  {
    var w' := Next(w, s);
    var work := map t | t in w.publishers :: 1 + |w.publishers[t].rest|;
    var work' := map t | t in w'.publishers :: 1 + |w'.publishers[t].rest|;
    if s.Send? {
      assert work' == work[s.t := work[s.t] - 1];
      SumUpdate(work, s.t, work[s.t] - 1);
    } else {
      assert work' == work - {s.t};
      SumRemove(work, s.t);
    }
  }

  lemma WorkIsNonNegative(w: World)
    ensures Work(w) >= 0
  {
    SumBounds(map t | t in w.publishers :: 1 + |w.publishers[t].rest|, 0);
  }

  lemma StoppedMeansQuiet(w: World)
    requires Inv(w)
    ensures !SomeoneMoves(w) <==> w.publishers == map[]
  {
    if w.publishers != map[] {
      var t := SomeKey(w.publishers);
      SendIsDue(w, t);
      var s := if w.publishers[t].rest == [] then LeavePublish(t) else Send(t);
      assert Publishes(s) && Enabled(w, s);
    }
  }

  lemma {:induction false} PublishersRunDown(w: World, steps: seq<Step>)
    requires Inv(w) && Run(w, steps) && forall i :: 0 <= i < |steps| ==> Publishes(steps[i])
    ensures Work(After(w, steps)) == Work(w) - |steps|
    decreases |steps|
  {
    if steps != [] {
      NextInv(w, steps[0]);
      NextWork(w, steps[0]);
      PublishersRunDown(Next(w, steps[0]), steps[1..]);
    }
  }

  /** No publisher waits for anybody: in whatever order those at work go on, they stop exactly when
      none is left, after the sends and leavings they had before them. Whoever wants the write
      lock gets it then. */
  lemma PublishersLeave(w: World, steps: seq<Step>)
    requires Inv(w) && Run(w, steps) && forall i :: 0 <= i < |steps| ==> Publishes(steps[i])
    ensures |steps| <= Work(w)
    ensures !SomeoneMoves(After(w, steps)) <==> After(w, steps).publishers == map[]
  {
    AfterInv(w, steps);
    PublishersRunDown(w, steps);
    WorkIsNonNegative(After(w, steps));
    StoppedMeansQuiet(After(w, steps));
  }

  // ---------------------------------------------------------------------------
  // Overlapping calls of Publish may reach a subscriber in either order
  // ---------------------------------------------------------------------------

  lemma {:induction false} Extend(start: World, steps: seq<Step>, w: World, s: Step) returns (longer: seq<Step>)
    requires Run(start, steps) && After(start, steps) == w && Enabled(w, s)
    ensures longer == steps + [s] && Run(start, longer) && After(start, longer) == Next(w, s)
    decreases |steps|
  {
    longer := steps + [s];
    if steps == [] {
      assert longer[1..] == [];
    } else {
      var rest := Extend(Next(start, steps[0]), steps[1..], w, s);
      assert longer[1..] == rest;
    }
  }

  /** The publisher has this channel before it, and only channels that exist. */
  ghost predicate Ahead(w: World, t: Tid, c: ChanId) {
    t in w.publishers && c in w.publishers[t].rest &&
    forall i :: 0 <= i < |w.publishers[t].rest| ==> 0 <= w.publishers[t].rest[i] < |w.chans|
  }

  /** What happens between two worlds to one channel and to all publishers but one. */
  ghost predicate OnlyMoves(w: World, w': World, t: Tid) {
    |w'.chans| == |w.chans| && forall u :: u != t && u in w.publishers ==>
      u in w'.publishers && w'.publishers[u] == w.publishers[u]
  }

  /** A publisher goes on until the channel is its next. */
  lemma {:induction false} Approach(start: World, steps: seq<Step>, w: World, t: Tid, c: ChanId)
    returns (longer: seq<Step>, w': World)
    requires Run(start, steps) && After(start, steps) == w && Ahead(w, t, c)
    ensures Run(start, longer) && After(start, longer) == w' && Ahead(w', t, c)
    ensures w'.publishers[t].rest[0] == c && w'.publishers[t].message == w.publishers[t].message
    ensures OnlyMoves(w, w', t) && 0 <= c < |w.chans| && w'.chans[c] == w.chans[c]
    decreases |w.publishers[t].rest|
  {
    if w.publishers[t].rest[0] == c {
      longer, w' := steps, w;
    } else {
      var more := Extend(start, steps, w, Send(t));
      longer, w' := Approach(start, more, Next(w, Send(t)), t, c);
    }
  }

  lemma Drain(start: World, steps: seq<Step>, w: World, t: Tid, c: ChanId) returns (longer: seq<Step>, w': World)
    requires Run(start, steps) && After(start, steps) == w && 0 <= c < |w.chans|
    ensures Run(start, longer) && After(start, longer) == w' && w'.publishers == w.publishers
    ensures |w'.chans| == |w.chans| && w'.chans[c].buffer.None? && w'.chans[c].received == w.chans[c].Delivered()
  {
    longer, w' := steps, w;
    if w.chans[c].buffer.Some? {
      longer := Extend(start, steps, w, Receive(c));
      w' := Next(w, Receive(c));
    }
  }

  /** The publisher's message reaches the channel's subscriber next. */
  lemma DeliverNext(start: World, steps: seq<Step>, w: World, t: Tid, c: ChanId) returns (longer: seq<Step>, w': World)
    requires Run(start, steps) && After(start, steps) == w && Ahead(w, t, c)
    ensures Run(start, longer) && After(start, longer) == w' && OnlyMoves(w, w', t)
    ensures 0 <= c < |w.chans| && w'.chans[c].buffer.None?
    ensures w'.chans[c].received == w.chans[c].Delivered() + [w.publishers[t].message]
  {
    var there, w1 := Approach(start, steps, w, t, c);
    var empty, w2 := Drain(start, there, w1, t, c);
    var sent := Extend(start, empty, w2, Send(t));
    var w3 := Next(w2, Send(t));
    longer, w' := Drain(start, sent, w3, t, c);
  }

  /** Whenever two publishers of a run have a channel before them, the run can go on so that
      its subscriber receives their messages next, in whichever order one likes. */
  lemma EitherOrder(steps: seq<Step>, w: World, t: Tid, u: Tid, c: ChanId) returns (longer: seq<Step>, w': World)
    requires Run(Start(), steps) && After(Start(), steps) == w && t != u
    requires t in w.publishers && u in w.publishers && c in w.publishers[t].rest && c in w.publishers[u].rest
    ensures Run(Start(), longer) && After(Start(), longer) == w'
    ensures 0 <= c < |w.chans| && c < |w'.chans|
    ensures w'.chans[c].received == w.chans[c].Delivered() + [w.publishers[t].message, w.publishers[u].message]
  {
    StartInv();
    AfterInv(Start(), steps);
    RestExists(w, t, c);
    RestExists(w, u, c);
    var first, w1 := DeliverNext(Start(), steps, w, t, c);
    longer, w' := DeliverNext(Start(), first, w1, u, c);
    assert w1.chans[c].Delivered() == w1.chans[c].received;
  }

  lemma RestExists(w: World, t: Tid, c: ChanId)
    requires Inv(w) && t in w.publishers && c in w.publishers[t].rest
    ensures Ahead(w, t, c)
  {
    var p := w.publishers[t];
    assert PublisherIsSound(p, w.Subscribers(p.topic), w.chans, w.log);
    forall i | 0 <= i < |p.rest|
      ensures 0 <= p.rest[i] < |w.chans|
    {
      assert IsUntried(p.message, p.rest[i], w.chans);
    }
  }

  // Two publishers do come to have a channel before them together.

  function Swapping(received: seq<MessageId>, attempts: seq<MessageId>, buffer: Option<MessageId>): seq<Chan> {
    [Chan(0, buffer, 0, 0, attempts, received, false)]
  }

  function TwoAtWork(first: seq<ChanId>, second: seq<ChanId>, chans: seq<Chan>): World {
    World(map[0 := [0]], chans, map[1 := Publisher(0, 0, first), 2 := Publisher(1, 0, second)], [0, 0], {(1, 0)})
  }

  lemma TwoEnter()
    ensures Run(Start(), [Subscribe(0), EnterPublish(1, 0), EnterPublish(2, 0)])
    ensures After(Start(), [Subscribe(0), EnterPublish(1, 0), EnterPublish(2, 0)]) ==
      TwoAtWork([0], [0], Swapping([], [], None))
  {
    var w1 := World(map[0 := [0]], Swapping([], [], None), map[], [], {});
    assert Start().Subscribers(0) + [0] == [0];
    assert Next(Start(), Subscribe(0)) == w1;
    var w2 := World(map[0 := [0]], Swapping([], [], None), map[1 := Publisher(0, 0, [0])], [0], {});
    assert Next(w1, EnterPublish(1, 0)) == w2;
    assert Next(w2, EnterPublish(2, 0)) == TwoAtWork([0], [0], Swapping([], [], None));
    var steps := [Subscribe(0), EnterPublish(1, 0), EnterPublish(2, 0)];
    assert steps[1..] == [EnterPublish(1, 0), EnterPublish(2, 0)];
    assert steps[1..][1..] == [EnterPublish(2, 0)];
    assert steps[1..][1..][1..] == [];
  }

  lemma SecondIsFaster()
    ensures var w := TwoAtWork([0], [0], Swapping([], [], None));
      var steps := [Send(2), Receive(0), Send(1), Receive(0)];
      Run(w, steps) && After(w, steps) == TwoAtWork([], [], Swapping([1, 0], [1, 0], None))
  {
    var w := TwoAtWork([0], [0], Swapping([], [], None));
    var w1 := TwoAtWork([0], [], Swapping([], [1], Some(1)));
    assert [0][1..] == [] && [] + [1] == [1] && [1] + [0] == [1, 0];
    assert Next(w, Send(2)) == w1;
    var w2 := TwoAtWork([0], [], Swapping([1], [1], None));
    assert Next(w1, Receive(0)) == w2;
    var w3 := TwoAtWork([], [], Swapping([1], [1, 0], Some(0)));
    assert Next(w2, Send(1)) == w3;
    assert Next(w3, Receive(0)) == TwoAtWork([], [], Swapping([1, 0], [1, 0], None));
    var steps := [Send(2), Receive(0), Send(1), Receive(0)];
    assert steps[1..] == [Receive(0), Send(1), Receive(0)];
    assert steps[1..][1..] == [Send(1), Receive(0)];
    assert steps[1..][1..][1..] == [Receive(0)];
    assert steps[1..][1..][1..][1..] == [];
  }
}
