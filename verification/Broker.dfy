/** The publish/subscribe broker's own methods (pkg/pubsub/pubsub.go:8-63), each as the section
    it runs under the lock; BrokerThreads has what happens when sections of Publish overlap. */
module Broker {
  import opened Prelude

  type Topic = int
  type Message = int

  /** A Go channel of capacity one. Sending on a closed channel and closing one twice panic:
      that nobody does is a precondition here. */
  class Chan {
    var buffer: Option<Message>
    var closed: bool

    constructor ()
      ensures buffer.None? && !closed
    {
      buffer, closed := None, false;
    }

    /** select with a default case: a full buffer drops the message. */
    method TrySend(m: Message)
      requires !closed
      modifies this`buffer
      ensures buffer == if old(buffer).None? then Some(m) else old(buffer)
    {
      if buffer.None? {
        buffer := Some(m);
      }
    }

    method Close()
      requires !closed
      modifies this`closed
      ensures closed
    {
      closed := true;
    }
  }

  /** Every channel is listed under one topic at most, and there once. */
  ghost predicate Once(topics: map<Topic, seq<Chan>>) {
    && (forall t :: t in topics ==> NoDup(topics[t]))
    && (forall t, u, ch :: t in topics && u in topics && ch in topics[t] && ch in topics[u] ==> t == u)
  }

  /** The list without the first occurrence of a channel. */
  function Without(list: seq<Chan>, ch: Chan): seq<Chan> {
    if list == [] then []
    else if list[0] == ch then list[1..]
    else [list[0]] + Without(list[1..], ch)
  }

  lemma {:induction false} WithoutAt(list: seq<Chan>, i: nat)
    requires i < |list| && list[i] !in list[..i]
    ensures Without(list, list[i]) == list[..i] + list[i + 1..]
    decreases i
  {
    if i > 0 {
      assert list[..i][0] == list[0];
      assert list[1..][..i - 1] == list[..i][1..];
      WithoutAt(list[1..], i - 1);
      assert [list[0]] + (list[1..][..i - 1] + list[1..][i..]) == list[..i] + list[i + 1..];
    }
  }

  ghost function AllOf(topics: map<Topic, seq<Chan>>): set<Chan> {
    set topic, i | topic in topics && 0 <= i < |topics[topic]| :: topics[topic][i]
  }

  lemma OnceAfterRemoving(topics: map<Topic, seq<Chan>>, topic: Topic, i: nat)
    requires Once(topics) && topic in topics && i < |topics[topic]|
    ensures var topics' := topics[topic := topics[topic][..i] + topics[topic][i + 1..]];
      Once(topics') && AllOf(topics') <= AllOf(topics) - {topics[topic][i]}
  {
    NoDupRemove(topics[topic], i);
    var rest, ch := topics[topic][..i] + topics[topic][i + 1..], topics[topic][i];
    var topics' := topics[topic := rest];
    forall other | other in AllOf(topics')
      ensures other in AllOf(topics) && other != ch
    {
      var t, j :| t in topics' && 0 <= j < |topics'[t]| && topics'[t][j] == other;
      var k := if t == topic && j >= i then j + 1 else j;
      assert topics[t][k] == other && ch in topics[topic];
      assert t == topic ==> other in rest;
    }
  }

  lemma OnceAfterAdding(topics: map<Topic, seq<Chan>>, topic: Topic, ch: Chan)
    requires Once(topics) && forall t :: t in topics ==> ch !in topics[t]
    ensures Once(topics[topic := (if topic in topics then topics[topic] else []) + [ch]])
  {
    NoDupAppend(if topic in topics then topics[topic] else [], ch);
  }

  lemma OnceAfterDropping(topics: map<Topic, seq<Chan>>, topic: Topic)
    requires Once(topics) && topic in topics
    ensures Once(topics - {topic})
    ensures AllOf(topics - {topic}) == AllOf(topics) - set ch | ch in topics[topic]
  {
    var rest := topics - {topic};
    forall ch | ch in AllOf(topics) && ch !in topics[topic]
      ensures ch in AllOf(rest)
    {
      var t, i :| t in topics && 0 <= i < |topics[t]| && topics[t][i] == ch;
      assert t in rest && rest[t][i] == ch;
    }
    forall ch | ch in AllOf(rest)
      ensures ch in AllOf(topics) && ch !in topics[topic]
    {
      var t, i :| t in rest && 0 <= i < |rest[t]| && rest[t][i] == ch;
      assert t in topics && topics[t][i] == ch;
    }
  }

  lemma Elsewhere(list: seq<Chan>, i: nat)
    requires NoDup(list) && i < |list|
    ensures forall j :: 0 <= j < |list| && j != i ==> list[j] != list[i]
  {
    forall j | 0 <= j < |list| && j != i
      ensures list[j] != list[i]
    {
      if j < i {
        NoDupAt(list, j, i);
      } else {
        NoDupAt(list, i, j);
      }
    }
  }

  class PubSub {
    var topics: map<Topic, seq<Chan>>

    ghost function Listed(): set<Chan>
      reads this
    {
      AllOf(topics)
    }

    function Subscribers(topic: Topic): seq<Chan>
      reads this
    {
      if topic in topics then topics[topic] else []
    }

    ghost predicate Valid()
      reads this, Listed()
    {
      Once(topics) && forall ch :: ch in Listed() ==> !ch.closed
    }

    constructor ()
      ensures Valid() && topics == map[]
    {
      topics := map[];
    }

    method Subscribe(topic: Topic) returns (ch: Chan)
      requires Valid()
      modifies this
      ensures Valid()
      ensures fresh(ch) && !ch.closed && ch.buffer.None?
      ensures topics == old(topics)[topic := old(Subscribers(topic)) + [ch]]
    {
      ch := new Chan();
      OnceAfterAdding(topics, topic, ch);
      topics := topics[topic := Subscribers(topic) + [ch]];
    }

    /** Every subscriber of the topic with room for the message gets it; nothing else changes. */
    method Publish(topic: Topic, m: Message)
      requires Valid()
      modifies Subscribers(topic)
      ensures Valid()
      ensures forall ch :: ch in Subscribers(topic) ==>
        !ch.closed && ch.buffer == if old(ch.buffer).None? then Some(m) else old(ch.buffer)
    {
      var subs := Subscribers(topic);
      for i := 0 to |subs|
        invariant forall j :: 0 <= j < i ==>
          subs[j].buffer == if old(subs[j].buffer).None? then Some(m) else old(subs[j].buffer)
        invariant forall j :: i <= j < |subs| ==> subs[j].buffer == old(subs[j].buffer)
        invariant forall ch :: ch in Listed() ==> !ch.closed
      {
        Elsewhere(subs, i);
        subs[i].TrySend(m);
      }
    }
  
    /** The channel is closed and taken off the list, if it is there; otherwise nothing happens. */
    method Unsubscribe(topic: Topic, sub: Chan)
      requires Valid()
      modifies this, Subscribers(topic)
      ensures Valid()
      ensures sub !in old(Subscribers(topic)) ==> topics == old(topics)
      ensures sub in old(Subscribers(topic)) ==>
        topics == old(topics)[topic := Without(old(Subscribers(topic)), sub)] && sub.closed && sub !in Listed()
      ensures forall ch :: ch in old(Subscribers(topic)) ==>
        ch.buffer == old(ch.buffer) && (ch != sub ==> !ch.closed)
    {
      var list := Subscribers(topic);
      for i := 0 to |list|
        invariant sub !in list[..i] && topics == old(topics)
        invariant Valid() && forall ch :: ch in list ==> ch.buffer == old(ch.buffer)
      {
        if list[i] == sub {
          OnceAfterRemoving(topics, topic, i);
          WithoutAt(list, i);
          list[i].Close();
          topics := topics[topic := list[..i] + list[i + 1..]];
          return;
        }
      }
    }

    /** Every listed channel is closed and no topic is left. */
    method Shutdown()
      requires Valid()
      modifies this, Listed()
      ensures Valid() && topics == map[]
      ensures forall ch :: ch in old(Listed()) ==> ch.closed && ch.buffer == old(ch.buffer)
    {
      while topics != map[]
        invariant Valid() && Listed() <= old(Listed())
        invariant forall ch :: ch in old(Listed()) ==> ch.buffer == old(ch.buffer) && (ch.closed <==> ch !in Listed())
        decreases |topics.Keys|
      {
        ghost var some := SomeKey(topics);
        assert some in topics;
        var topic :| topic in topics;
        CloseAll(topic);
      }
    }

    method CloseAll(topic: Topic)
      requires Valid() && topic in topics
      modifies this, Subscribers(topic)
      ensures Valid() && topics == old(topics) - {topic}
      ensures Listed() == old(Listed()) - set ch | ch in old(topics[topic])
      ensures forall ch :: ch in old(topics[topic]) ==> ch.closed && ch.buffer == old(ch.buffer)
    {
      var subs := topics[topic];
      for i := 0 to |subs|
        invariant topics == old(topics)
        invariant forall j :: 0 <= j < i ==> subs[j].closed
        invariant forall j :: i <= j < |subs| ==> !subs[j].closed
        invariant forall j :: 0 <= j < |subs| ==> subs[j].buffer == old(subs[j].buffer)
        invariant forall ch :: ch in Listed() && ch !in subs ==> !ch.closed
      {
        Elsewhere(subs, i);
        subs[i].Close();
      }
      OnceAfterDropping(topics, topic);
      topics := topics - {topic};
    }
  }
}
