/**
 What a router's operations do to its route table, and to the set of topics
 subscribed at the broker. Channels are of any type: the router object routes to
 channel objects, the interleaving model to channel names.
 */
module Routing {
  import opened Streams

  /** The zero value of a correlation id marks requests and non-response channels. */
  const NO_CORRELATION := ""

  /** A channel gets a message if both carry the same correlation id or none. */
  predicate Matches(channelId: string, messageId: string) {
    if messageId == NO_CORRELATION then channelId == NO_CORRELATION else messageId == channelId
  }

  /** A route table and the broker's view of this client. A topic is leaked if the
      clean-up after a failed publication could not unsubscribe it. */
  datatype Routes<T> = Routes(table: map<string, seq<T>>, subscribed: set<string>, leaked: set<string>)

  /** Results of the three broker calls an operation may make. */
  datatype BrokerResults = BrokerResults(subscribe: bool, publish: bool, unsubscribe: bool)

  function ChannelsOf<T>(table: map<string, seq<T>>, topic: string): seq<T> {
    if topic in table then table[topic] else []
  }

  predicate Accepted<T>(r: Routes<T>, topic: string, b: BrokerResults) {
    b.publish && (topic in r.table || b.subscribe)
  }

  /** What a registration that is not accepted leaves behind. */
  function Rejected<T>(r: Routes<T>, topic: string, b: BrokerResults): Routes<T> {
    if topic in r.table || !b.subscribe then r
    else if b.unsubscribe then r.(subscribed := r.subscribed - {topic}, leaked := r.leaked - {topic})
    else r.(subscribed := r.subscribed + {topic}, leaked := r.leaked + {topic})
  }

  function Added<T>(r: Routes<T>, topic: string, c: T, b: BrokerResults): Routes<T> {
    if Accepted(r, topic, b) then
      Routes(r.table[topic := ChannelsOf(r.table, topic) + [c]], r.subscribed + {topic}, r.leaked - {topic})
    else Rejected(r, topic, b)
  }

  /** What a registration does to the table: the channel comes last in its topic's list,
      unless subscribing or publishing fails. */
  lemma AddedTable<T>(r: Routes<T>, topic: string, c: T, b: BrokerResults)
    ensures Added(r, topic, c, b).table
            == if !b.publish || (topic !in r.table && !b.subscribe) then r.table
               else if topic in r.table then r.table[topic := r.table[topic] + [c]]
               else r.table[topic := [c]]
  {
    assert topic !in r.table ==> ChannelsOf(r.table, topic) + [c] == [c];
  }

  /** The sequence without the first occurrence of c, in the original order. */
  function Without<T(==)>(cs: seq<T>, c: T): seq<T> {
    if cs == [] then [] else if cs[0] == c then cs[1..] else [cs[0]] + Without(cs[1..], c)
  }

  function Removed<T(==)>(r: Routes<T>, topic: string, c: T, unsubscribes: bool): Routes<T> {
    var cs := ChannelsOf(r.table, topic);
    if c !in cs then r
    else if |cs| > 1 then r.(table := r.table[topic := Without(cs, c)])
    else if unsubscribes then r.(table := r.table - {topic}, subscribed := r.subscribed - {topic})
    else r.(table := r.table[topic := []])
  }

  lemma {:induction false} WithoutIsRemoval<T>(cs: seq<T>, c: T, i: nat)
    requires Distinct(cs) && i < |cs| && cs[i] == c
    ensures Without(cs, c) == cs[..i] + cs[i + 1..]
  {
    if i > 0 {
      assert cs[1..][i - 1] == c;
      WithoutIsRemoval(cs[1..], c, i - 1);
    }
  }

  /** What a removal does to the table: it cuts the channel out of its topic's list, or
      drops the topic with its last channel if that can be unsubscribed. */
  lemma RemovedTable<T>(r: Routes<T>, topic: string, c: T, unsubscribes: bool)
    requires topic in r.table ==> Distinct(r.table[topic])
    ensures topic !in r.table || c !in r.table[topic] ==> Removed(r, topic, c, unsubscribes) == r
    ensures topic in r.table ==> forall i :: 0 <= i < |r.table[topic]| && r.table[topic][i] == c ==>
              var cs := r.table[topic];
              Removed(r, topic, c, unsubscribes).table
              == if cs == [c] && unsubscribes then r.table - {topic} else r.table[topic := cs[..i] + cs[i + 1..]]
  {
    if topic in r.table {
      var cs := r.table[topic];
      forall i | 0 <= i < |cs| && cs[i] == c
        ensures Without(cs, c) == cs[..i] + cs[i + 1..] && (|cs| == 1 <==> cs == [c])
      {
        WithoutIsRemoval(cs, c, i);
      }
    }
  }

  /** Cutting out one position. */
  lemma CutKeepsOthers<T>(cs: seq<T>, i: nat)
    requires Distinct(cs) && i < |cs|
    ensures var kept := cs[..i] + cs[i + 1..];
            && |kept| == |cs| - 1 && Distinct(kept)
            && forall k :: 0 <= k < |kept| ==> kept[k] == cs[if k < i then k else k + 1] && kept[k] != cs[i]
  {
    var kept := cs[..i] + cs[i + 1..];
    forall k | 0 <= k < |kept|
      ensures kept[k] == cs[if k < i then k else k + 1]
    {
    }
  }

  lemma WithoutKeepsOthers<T>(cs: seq<T>, c: T)
    requires Distinct(cs) && c in cs
    ensures Distinct(Without(cs, c)) && |Without(cs, c)| == |cs| - 1
    ensures forall i :: 0 <= i < |Without(cs, c)| ==> Without(cs, c)[i] in cs && Without(cs, c)[i] != c
  {
    var i :| 0 <= i < |cs| && cs[i] == c;
    WithoutIsRemoval(cs, c, i);
    CutKeepsOthers(cs, i);
  }

  lemma WithoutSelects<T>(cs: seq<T>, c: T)
    requires Distinct(cs)
    ensures Selects(Without(cs, c), cs)
  {
    if i :| 0 <= i < |cs| && cs[i] == c {
      WithoutIsRemoval(cs, c, i);
      CutKeepsOthers(cs, i);
      var kept := Without(cs, c);
      forall j, k | 0 <= j < k < |kept|
        ensures Precedes(cs, kept[j], kept[k])
      {
        assert kept[j] == cs[if j < i then j else j + 1] && kept[k] == cs[if k < i then k else k + 1];
      }
    } else {
      WithoutNothing(cs, c);
      SelectsAll(cs);
    }
  }

  lemma {:induction false} WithoutNothing<T>(cs: seq<T>, c: T)
    requires c !in cs
    ensures Without(cs, c) == cs
  {
    if cs != [] {
      WithoutNothing(cs[1..], c);
    }
  }

  lemma {:induction false} WithoutLosesOnly<T>(cs: seq<T>, c: T, d: T)
    requires d != c
    ensures d in Without(cs, c) <==> d in cs
  {
    if cs != [] && cs[0] != c {
      WithoutLosesOnly(cs[1..], c, d);
      assert d in cs <==> d == cs[0] || d in cs[1..];
    } else if cs != [] {
      assert d in cs <==> d == cs[0] || d in cs[1..];
    }
  }

  // ------------------------------------------------------- naming channels

  function NamesOf<T>(cs: seq<T>, name: T -> nat): (ns: seq<nat>)
    ensures |ns| == |cs| && forall i :: 0 <= i < |cs| ==> ns[i] == name(cs[i])
  {
    if cs == [] then [] else [name(cs[0])] + NamesOf(cs[1..], name)
  }

  /** The same routes with channels replaced by their names. */
  function Named<T>(r: Routes<T>, name: T -> nat): Routes<nat> {
    Routes(map t | t in r.table :: NamesOf(r.table[t], name), r.subscribed, r.leaked)
  }

  lemma NamesOfSnoc<T>(cs: seq<T>, c: T, name: T -> nat)
    ensures NamesOf(cs + [c], name) == NamesOf(cs, name) + [name(c)]
  {
  }

  lemma {:induction false} NamesWithout<T>(cs: seq<T>, c: T, name: T -> nat)
    requires forall i :: 0 <= i < |cs| && cs[i] != c ==> name(cs[i]) != name(c)
    ensures NamesOf(Without(cs, c), name) == Without(NamesOf(cs, name), name(c))
    ensures c in cs <==> name(c) in NamesOf(cs, name)
  {
    if cs != [] {
      NamesWithout(cs[1..], c, name);
      assert c in cs <==> cs[0] == c || c in cs[1..];
    }
  }

  /** Registering and removing commute with naming. */
  lemma AddedIsNamed<T>(r: Routes<T>, topic: string, c: T, b: BrokerResults, name: T -> nat)
    ensures Named(Added(r, topic, c, b), name) == Added(Named(r, name), topic, name(c), b)
  {
    NamesOfSnoc(ChannelsOf(r.table, topic), c, name);
  }

  lemma RemovedIsNamed<T>(r: Routes<T>, topic: string, c: T, unsubscribes: bool, name: T -> nat)
    requires forall i ::
               0 <= i < |ChannelsOf(r.table, topic)| && ChannelsOf(r.table, topic)[i] != c ==>
                 name(ChannelsOf(r.table, topic)[i]) != name(c)
    ensures Named(Removed(r, topic, c, unsubscribes), name) == Removed(Named(r, name), topic, name(c), unsubscribes)
  {
    NamesWithout(ChannelsOf(r.table, topic), c, name);
  }

  // ------------------------------------------------------- broker calls

  /** A call to the broker and whether it succeeded; a failing call has no effect. */
  datatype BrokerCall =
    | Subscribe(topic: string, ok: bool)
    | Publish(ok: bool)
    | Unsubscribe(topic: string, ok: bool)

  /** The calls of a registration: publish, for a topic without a route between
      subscribe and, should publish fail, its undoing. */
  function AddCalls<T>(r: Routes<T>, topic: string, b: BrokerResults): seq<BrokerCall> {
    if topic in r.table then [Publish(b.publish)]
    else if !b.subscribe then [Subscribe(topic, false)]
    else if b.publish then [Subscribe(topic, true), Publish(true)]
    else [Subscribe(topic, true), Publish(false), Unsubscribe(topic, b.unsubscribe)]
  }

  function RemoveCalls<T(==)>(r: Routes<T>, topic: string, c: T, unsubscribes: bool): seq<BrokerCall> {
    if ChannelsOf(r.table, topic) == [c] then [Unsubscribe(topic, unsubscribes)] else []
  }

  /** A registration publishes once, unless it cannot subscribe; the topic is subscribed
      just before that if it has no route, and unsubscribed after it if publishing fails.
      A removal asks to unsubscribe exactly if the channel is the topic's last. */
  lemma CallsOfOperations<T>(r: Routes<T>, topic: string, c: T, b: BrokerResults)
    ensures var calls, subscribed := AddCalls(r, topic, b), topic in r.table || b.subscribe;
            && (Publish(b.publish) in calls <==> subscribed)
            && (Subscribe(topic, b.subscribe) in calls <==> topic !in r.table)
            && (forall i :: 0 <= i < |calls| && calls[i].Publish? ==>
                  calls[i].ok == b.publish && i == if topic in r.table then 0 else 1)
            && (forall i :: 0 <= i < |calls| && calls[i].Subscribe? ==> i == 0)
            && (Unsubscribe(topic, b.unsubscribe) in calls <==> topic !in r.table && b.subscribe && !b.publish)
            && (forall i :: 0 <= i < |calls| && calls[i].Unsubscribe? ==> i == 2)
    ensures RemoveCalls(r, topic, c, b.unsubscribe)
            == if topic in r.table && r.table[topic] == [c] then [Unsubscribe(topic, b.unsubscribe)] else []
  {
    assert Subscribe(topic, b.subscribe) in [Subscribe(topic, b.subscribe)];
    assert [Subscribe(topic, true), Publish(b.publish)][1] == Publish(b.publish);
    var undone := [Subscribe(topic, true), Publish(false), Unsubscribe(topic, b.unsubscribe)];
    assert undone[1] == Publish(false) && undone[2] == Unsubscribe(topic, b.unsubscribe);
  }

  /** The subscriptions a broker holds for a client after its calls. */
  function Subscriptions(held: set<string>, calls: seq<BrokerCall>): set<string>
    decreases |calls|
  {
    if calls == [] then held
    else
      var before := Subscriptions(held, calls[..|calls| - 1]);
      match calls[|calls| - 1]
      case Subscribe(topic, ok) => if ok then before + {topic} else before
      case Publish(_) => before
      case Unsubscribe(topic, ok) => if ok then before - {topic} else before
  }

  lemma {:induction false} SubscriptionsConcat(held: set<string>, a: seq<BrokerCall>, b: seq<BrokerCall>)
    ensures Subscriptions(held, a + b) == Subscriptions(Subscriptions(held, a), b)
    decreases |b|
  {
    if b == [] {
      assert a + b == a;
    } else {
      SubscriptionsConcat(held, a, b[..|b| - 1]);
      assert (a + b)[..|a + b| - 1] == a + b[..|b| - 1];
    }
  }

  lemma SubscriptionsOfOne(held: set<string>, call: BrokerCall)
    ensures Subscriptions(held, [call]) ==
            if call.Subscribe? && call.ok then held + {call.topic}
            else if call.Unsubscribe? && call.ok then held - {call.topic}
            else held
  {
    assert [call][..0] == [];
  }

  /** The table's view of the broker is what the calls bring about. Nothing subscribes
      a topic that has a route, or unsubscribes one that has a channel left. */
  lemma CallsKeepSubscriptions<T>(r: Routes<T>, topic: string, c: T, b: BrokerResults)
    requires BrokerAgrees(r)
    ensures Subscriptions(r.subscribed, AddCalls(r, topic, b)) == Added(r, topic, c, b).subscribed
    ensures Subscriptions(r.subscribed, RemoveCalls(r, topic, c, b.unsubscribe))
            == Removed(r, topic, c, b.unsubscribe).subscribed
    ensures forall i :: 0 <= i < |AddCalls(r, topic, b)| && !AddCalls(r, topic, b)[i].Publish? ==>
              topic !in r.table && AddCalls(r, topic, b)[i].topic == topic
    ensures RemoveCalls(r, topic, c, b.unsubscribe) != [] ==>
              topic in r.table && ChannelsOf(Removed(r, topic, c, b.unsubscribe).table, topic) == []
  {
    var held := r.subscribed;
    var subscribe, publish := Subscribe(topic, b.subscribe), Publish(b.publish);
    var undo := Unsubscribe(topic, b.unsubscribe);
    SubscriptionsOfOne(held, publish);
    SubscriptionsOfOne(held, subscribe);
    SubscriptionsOfOne(held, undo);
    SubscriptionsOfOne(held + {topic}, publish);
    SubscriptionsOfOne(held + {topic}, undo);
    SubscriptionsConcat(held, [Subscribe(topic, true)], [Publish(b.publish)]);
    SubscriptionsConcat(held, [Subscribe(topic, true), Publish(false)], [undo]);
    assert [Subscribe(topic, true)] + [Publish(b.publish)] == [Subscribe(topic, true), Publish(b.publish)];
    assert [Subscribe(topic, true), Publish(false)] + [undo] == [Subscribe(topic, true), Publish(false), undo];
    assert ChannelsOf(r.table, topic) == [c] ==> Without([c], c) == [];
    assert Subscriptions(held, []) == held;
  }

  // ------------------------------------------------------- broker agreement

  /** The broker has exactly the routed topics subscribed, and those leaked. */
  predicate BrokerAgrees<T>(r: Routes<T>) {
    r.subscribed == r.table.Keys + r.leaked && r.table.Keys !! r.leaked
  }

  /** Broker agreement survives every outcome of every broker call; a channel-less
      topic stays routed only as long as it could not be unsubscribed. */
  lemma OperationsKeepBrokerAgreement<T>(r: Routes<T>, topic: string, c: T, b: BrokerResults)
    requires BrokerAgrees(r)
    ensures BrokerAgrees(Added(r, topic, c, b)) && BrokerAgrees(Removed(r, topic, c, b.unsubscribe))
    ensures Added(r, topic, c, b).leaked <= r.leaked + {topic}
    ensures topic in Added(r, topic, c, b).leaked - r.leaked
            ==> topic !in r.table && b.subscribe && !b.publish && !b.unsubscribe
    ensures Removed(r, topic, c, b.unsubscribe).leaked == r.leaked
  {
  }
}
