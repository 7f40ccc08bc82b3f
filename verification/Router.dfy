/**
 The router object: a map from topics to slices of channels. A slice is a prefix of
 a backing array, so registering may write into an array that an earlier removal has
 shortened, and removing shifts the elements of the array in place.
 */
module Router {
  import opened Routing
  import opened Streams
  import Runs = RouterRuns

  class RouteChannel {
    const topic: string
    const correlationId: string

    constructor (topic: string, correlationId: string)
      ensures this.topic == topic && this.correlationId == correlationId
    {
      this.topic, this.correlationId := topic, correlationId;
    }
  }

  /** A Go slice: the first len elements of its backing array. */
  datatype Slice = Slice(arr: array<RouteChannel?>, len: nat)
  {
    ghost function Live(): seq<RouteChannel?>
      requires len <= arr.Length
      reads arr
    {
      arr[..len]
    }
  }

  /** append: writes behind the slice if the backing array has room, else moves to
      a larger array; how much larger is up to the runtime. */
  method Append(s: Slice, c: RouteChannel) returns (t: Slice)
    requires s.len <= s.arr.Length
    modifies s.arr
    ensures t.len == s.len + 1 <= t.arr.Length
    ensures t.Live() == old(s.Live()) + [c]
    ensures t.arr == s.arr || (fresh(t.arr) && s.arr[..] == old(s.arr[..]))
  {
    if s.len < s.arr.Length {
      s.arr[s.len] := c;
      t := Slice(s.arr, s.len + 1);
    } else {
      var capacity: nat :| capacity > s.len;
      var arr := new RouteChannel?[capacity](_ => null);
      var i := 0;
      while i < s.len
        invariant 0 <= i <= s.len
        invariant forall j :: 0 <= j < i ==> arr[j] == s.arr[j]
        invariant s.arr[..] == old(s.arr[..])
      {
        arr[i] := s.arr[i];
        i := i + 1;
      }
      arr[s.len] := c;
      t := Slice(arr, s.len + 1);
    }
  }

  /** The loop of remove: once c is found, every later element moves one to the
      left; the element that becomes free is cleared. */
  method ShiftOut(s: Slice, c: RouteChannel) returns (found: bool)
    requires s.len <= s.arr.Length && Distinct(s.Live())
    modifies s.arr
    ensures found == (c in old(s.Live()))
    ensures !found ==> s.arr[..] == old(s.arr[..])
    ensures found ==> s.arr[..s.len] == Without(old(s.Live()), c) + [null]
    ensures s.arr[s.len..] == old(s.arr[s.len..])
  {
    found := false;
    ghost var before := s.Live();
    ghost var at: nat := s.len;
    var i := 0;
    while i < s.len
      invariant 0 <= i <= s.len
      invariant !found ==> forall j :: 0 <= j < i ==> before[j] != c
      invariant !found ==> at == s.len && s.arr[..] == old(s.arr[..])
      invariant found ==> at < i <= |before| && before[at] == c
      invariant forall j :: 0 <= j < at && j < s.len ==> s.arr[j] == before[j]
      invariant forall j :: 0 <= at <= j < i - 1 < |before| ==> s.arr[j] == before[j + 1]
      invariant forall j :: i <= j < s.arr.Length ==> s.arr[j] == old(s.arr[j])
    {
      assert before[i] == s.arr[i];
      if found {
        s.arr[i - 1] := s.arr[i];
      } else if s.arr[i] == c {
        found := true;
        at := i;
      }
      i := i + 1;
    }
    if found {
      s.arr[s.len - 1] := null;
      WithoutIsRemoval(before, c, at);
    }
  }

  /** Every list of the table holds channels of its topic, each once. */
  ghost predicate TableOk(table: map<string, seq<RouteChannel?>>) {
    forall t :: t in table ==> ListOk(t, table[t])
  }

  ghost predicate ListOk(topic: string, cs: seq<RouteChannel?>) {
    null !in cs && Distinct(cs) && forall i :: 0 <= i < |cs| ==> cs[i].topic == topic
  }

  /** The table is well formed, and agrees with the subscriptions that the broker
      holds after the given calls. */
  ghost predicate Consistent(r: Routes<RouteChannel?>, calls: seq<BrokerCall>) {
    TableOk(r.table) && BrokerAgrees(r) && r.subscribed == Subscriptions({}, calls)
  }

  lemma AddedTableOk(r: Routes<RouteChannel?>, c: RouteChannel, b: BrokerResults)
    requires TableOk(r.table) && c !in ChannelsOf(r.table, c.topic)
    ensures TableOk(Added(r, c.topic, c, b).table)
  {
    var cs := ChannelsOf(r.table, c.topic);
    assert ListOk(c.topic, cs) && ListOk(c.topic, cs + [c]);
  }

  lemma AddedIsConsistent(r: Routes<RouteChannel?>, c: RouteChannel, b: BrokerResults, calls: seq<BrokerCall>)
    requires Consistent(r, calls) && c !in ChannelsOf(r.table, c.topic)
    ensures Consistent(Added(r, c.topic, c, b), calls + AddCalls(r, c.topic, b))
  {
    OperationsKeepBrokerAgreement(r, c.topic, c, b);
    CallsKeepSubscriptions(r, c.topic, c, b);
    SubscriptionsConcat({}, calls, AddCalls(r, c.topic, b));
    AddedTableOk(r, c, b);
  }

  lemma RemovedTableOk(r: Routes<RouteChannel?>, c: RouteChannel, unsubscribes: bool)
    requires TableOk(r.table)
    ensures TableOk(Removed(r, c.topic, c, unsubscribes).table)
  {
    var cs := ChannelsOf(r.table, c.topic);
    if c in cs {
      WithoutKeepsOthers(cs, c);
      var rest := Without(cs, c);
      forall i | 0 <= i < |rest|
        ensures rest[i] != null && rest[i].topic == c.topic
      {
        assert rest[i] in rest && rest[i] in cs;
        var j :| 0 <= j < |cs| && cs[j] == rest[i];
        assert cs[j].topic == c.topic;
      }
    }
  }

  lemma RemovedIsConsistent(r: Routes<RouteChannel?>, c: RouteChannel, unsubscribes: bool, calls: seq<BrokerCall>)
    requires Consistent(r, calls)
    ensures Consistent(Removed(r, c.topic, c, unsubscribes), calls + RemoveCalls(r, c.topic, c, unsubscribes))
  {
    RemovedTableOk(r, c, unsubscribes);
    OperationsKeepBrokerAgreement(r, c.topic, c, BrokerResults(true, true, unsubscribes));
    CallsKeepSubscriptions(r, c.topic, c, BrokerResults(true, true, unsubscribes));
    SubscriptionsConcat({}, calls, RemoveCalls(r, c.topic, c, unsubscribes));
  }

  ghost predicate ListOpen(cs: seq<RouteChannel?>, closed: set<RouteChannel>) {
    forall c :: c in cs ==> c !in closed
  }

  /** No channel of the table has been closed. */
  ghost predicate TableOpen(table: map<string, seq<RouteChannel?>>, closed: set<RouteChannel>) {
    forall t {:trigger ListOpen(table[t], closed)} :: t in table ==> ListOpen(table[t], closed)
  }

  lemma AddedIsOpen(r: Routes<RouteChannel?>, c: RouteChannel, b: BrokerResults, closed: set<RouteChannel>)
    requires TableOpen(r.table, closed) && c !in closed
    ensures TableOpen(Added(r, c.topic, c, b).table, closed)
  {
    var table := Added(r, c.topic, c, b).table;
    forall t | t in table
      ensures ListOpen(table[t], closed)
    {
      assert t in r.table ==> ListOpen(r.table[t], closed);
    }
  }

  /** A removed channel may be closed: it was in no list but that of its topic, and there
      only once. */
  lemma RemovedIsOpen(r: Routes<RouteChannel?>, c: RouteChannel, unsubscribes: bool, closed: set<RouteChannel>)
    requires TableOk(r.table) && TableOpen(r.table, closed)
    ensures c in ChannelsOf(r.table, c.topic) ==> c !in closed
    ensures TableOpen(Removed(r, c.topic, c, unsubscribes).table,
                      closed + if c in ChannelsOf(r.table, c.topic) then {c} else {})
  {
    var cs, table := ChannelsOf(r.table, c.topic), Removed(r, c.topic, c, unsubscribes).table;
    assert closed + {} == closed;
    if c in cs {
      assert ListOpen(r.table[c.topic], closed);
      forall t | t in table
        ensures ListOpen(table[t], closed + {c})
      {
        assert ListOk(t, r.table[t]) && ListOpen(r.table[t], closed);
        WithoutKeepsOthers(cs, c);
      }
    }
  }

  lemma ListIsDistinct(r: Routes<RouteChannel?>, topic: string, calls: seq<BrokerCall>)
    requires Consistent(r, calls)
    ensures topic in r.table ==> Distinct(r.table[topic])
  {
    assert topic in r.table ==> ListOk(topic, r.table[topic]);
  }

  /** Removal as remove performs it: shorten the list, then drop an empty topic. */
  lemma ShortenedTable(r: Routes<RouteChannel?>, topic: string, c: RouteChannel, unsubscribes: bool)
    requires topic in r.table && c in r.table[topic] && Distinct(r.table[topic])
    ensures var shortened := r.table[topic := Without(r.table[topic], c)];
      Removed(r, topic, c, unsubscribes).table
      == if |r.table[topic]| == 1 && unsubscribes then shortened - {topic} else shortened
  {
    WithoutKeepsOthers(r.table[topic], c);
  }

  ghost predicate HoldsAt(s: Slice, owner: map<array<RouteChannel?>, string>, t: string, cs: seq<RouteChannel?>)
    reads owner.Keys
  {
    s.arr in owner && owner[s.arr] == t && s.len <= s.arr.Length && cs == s.Live()
  }

  /** Each topic has a backing array of its own, the live part of which is its list. */
  ghost predicate Holds(routes: map<string, Slice>, owner: map<array<RouteChannel?>, string>,
                        table: map<string, seq<RouteChannel?>>)
    reads owner.Keys
  {
    && table.Keys == routes.Keys
    && forall t {:trigger HoldsAt(routes[t], owner, t, table[t])} ::
         t in routes ==> HoldsAt(routes[t], owner, t, table[t])
  }

  class Router {
    var routes: map<string, Slice>
    /** The channels whose receive channel has been closed. */
    var closed: set<RouteChannel>
    /** The calls made to the broker so far. */
    var calls: seq<BrokerCall>
    /** The table the slices stand for, and the topics this client has subscribed. */
    ghost var abs: Routes<RouteChannel?>

    /** The backing arrays in use, with the topic that each belongs to. */
    ghost var owner: map<array<RouteChannel?>, string>

    ghost predicate Valid()
      reads this, owner.Keys
    {
      Holds(routes, owner, abs.table) && Consistent(abs, calls) && TableOpen(abs.table, closed)
    }

    constructor ()
      ensures Valid() && abs == Routes(map[], {}, {})
    {
      routes, closed, calls, abs, owner := map[], {}, [], Routes(map[], {}, {}), map[];
    }

    method GetTopics() returns (topics: seq<string>)
      ensures Distinct(topics) && forall t :: t in topics <==> t in routes
    {
      topics := [];
      var rest := routes.Keys;
      while rest != {}
        invariant rest <= routes.Keys && Distinct(topics)
        invariant forall t :: t in topics <==> t in routes && t !in rest
        decreases rest
      {
        var t :| t in rest;
        rest := rest - {t};
        topics := topics + [t];
      }
    }

    /** Registers a new channel if the broker calls allow it: subscribe is called for
        a topic without a route only, and unsubscribe only to undo it. */
    method Add(topic: string, correlationId: string, broker: BrokerResults) returns (rc: RouteChannel?)
      requires Valid()
      modifies this, owner.Keys
      ensures Valid()
      ensures rc != null <==> broker.publish && (topic in old(routes) || broker.subscribe)
      ensures rc != null ==> fresh(rc) && rc.topic == topic && rc.correlationId == correlationId && rc !in closed
      ensures abs == if rc != null then Added(old(abs), topic, rc, broker) else Rejected(old(abs), topic, broker)
      ensures abs.table == if rc == null then old(abs).table
                           else if topic in old(abs).table then old(abs).table[topic := old(abs).table[topic] + [rc]]
                           else old(abs).table[topic := [rc]]
      ensures calls == old(calls) + AddCalls(old(abs), topic, broker)
      ensures fresh(owner.Keys - old(owner.Keys)) && closed == old(closed)
    {
      var c := new RouteChannel(topic, correlationId);
      ghost var before := abs;
      AddedIsConsistent(before, c, broker, calls);
      AddedIsOpen(before, c, broker, closed);
      AddedTable(before, topic, c, broker);
      abs := Added(before, topic, c, broker);
      var accepted := Attach(topic, c, broker, before);
      rc := if accepted then c else null;
    }

    /** The broker calls of a registration, up to the first that fails and, if that
        leaves a subscription unused, its undoing; r is the table so far. */
    method CallBroker(topic: string, broker: BrokerResults, ghost r: Routes<RouteChannel?>) returns (accepted: bool)
      requires routes.Keys == r.table.Keys
      modifies this`calls
      ensures accepted == Accepted(r, topic, broker)
      ensures calls == old(calls) + AddCalls(r, topic, broker)
    {
      if topic !in routes { // subscription not yet set up
        calls := calls + [Subscribe(topic, broker.subscribe)];
        if !broker.subscribe {
          return false;
        }
      }
      calls := calls + [Publish(broker.publish)];
      if !broker.publish && topic !in routes {
        calls := calls + [Unsubscribe(topic, broker.unsubscribe)];
      }
      accepted := broker.publish;
    }

    /** Puts a channel into the table, r so far, if the broker calls succeed. */
    method Attach(topic: string, c: RouteChannel, broker: BrokerResults, ghost r: Routes<RouteChannel?>)
      returns (accepted: bool)
      requires Holds(routes, owner, r.table)
      modifies this`routes, this`owner, this`calls, owner.Keys
      ensures accepted == Accepted(r, topic, broker)
      ensures calls == old(calls) + AddCalls(r, topic, broker)
      ensures Holds(routes, owner, Added(r, topic, c, broker).table)
      ensures fresh(owner.Keys - old(owner.Keys))
    {
      accepted := CallBroker(topic, broker, r);
      if accepted {
        assert Added(r, topic, c, broker).table == r.table[topic := ChannelsOf(r.table, topic) + [c]];
        if topic in routes {
          Extend(topic, c, r.table);
        } else {
          assert ChannelsOf(r.table, topic) + [c] == [c];
          Open(topic, c, r.table);
        }
      }
    }

    /** Installs a slice holding one channel for a topic without a route. */
    method Open(topic: string, c: RouteChannel, ghost table: map<string, seq<RouteChannel?>>)
      requires Holds(routes, owner, table) && topic !in routes
      modifies this`routes, this`owner
      ensures Holds(routes, owner, table[topic := [c]])
      ensures fresh(owner.Keys - old(owner.Keys))
    {
      var arr := new RouteChannel?[1](_ => c);
      assert arr[..1] == [c];
      ghost var before := routes;
      routes := routes[topic := Slice(arr, 1)];
      owner := owner[arr := topic];
      forall t | t in routes
        ensures HoldsAt(routes[t], owner, t, table[topic := [c]][t])
      {
        assert t != topic ==> HoldsAt(before[t], old(owner), t, table[t]);
      }
    }

    /** Appends a channel to the slice of a routed topic. */
    method Extend(topic: string, c: RouteChannel, ghost table: map<string, seq<RouteChannel?>>)
      requires Holds(routes, owner, table) && topic in routes
      modifies this`routes, this`owner, owner.Keys
      ensures Holds(routes, owner, table[topic := table[topic] + [c]])
      ensures fresh(owner.Keys - old(owner.Keys))
    {
      ghost var before := routes;
      assert forall t :: t in routes ==> HoldsAt(routes[t], owner, t, table[t]);
      var s := Append(routes[topic], c);
      routes := routes[topic := s];
      owner := owner[s.arr := topic];
      forall t | t in routes
        ensures HoldsAt(routes[t], owner, t, table[topic := table[topic] + [c]][t])
      {
        assert t != topic ==> before[t].arr != before[topic].arr && before[t].Live() == old(before[t].Live());
      }
    }

    /** The channels that dispatch sends a message to, in order: a request goes to all
        non-response channels of its topic, a response to the correlated ones. */
    method DispatchTargets(topic: string, correlationId: string) returns (targets: seq<RouteChannel?>)
      requires Valid()
      ensures targets == Addressees(ChannelsOf(abs.table, topic), correlationId)
      ensures AreTargets(targets, if topic in abs.table then abs.table[topic] else [], correlationId)
    {
      ListIsDistinct(abs, topic, calls);
      AddresseesMatch(ChannelsOf(abs.table, topic), correlationId);
      targets := [];
      if topic in routes {
        assert HoldsAt(routes[topic], owner, topic, abs.table[topic]);
        var s := routes[topic];
        var i := 0;
        if correlationId == NO_CORRELATION {
          while i < s.len
            invariant 0 <= i <= s.len && targets == Addressees(s.Live()[..i], correlationId)
          {
            assert s.Live()[..i + 1][..i] == s.Live()[..i];
            if s.arr[i].correlationId == NO_CORRELATION {
              targets := targets + [s.arr[i]];
            }
            i := i + 1;
          }
        } else {
          while i < s.len
            invariant 0 <= i <= s.len && targets == Addressees(s.Live()[..i], correlationId)
          {
            assert s.Live()[..i + 1][..i] == s.Live()[..i];
            if correlationId == s.arr[i].correlationId {
              targets := targets + [s.arr[i]];
            }
            i := i + 1;
          }
        }
        assert s.Live()[..i] == s.Live();
      }
    }

    /** Takes a channel out of the table and closes it, once, if it is still there. The
        broker is asked to unsubscribe only when no channel of the topic is left. */
    method Remove(rc: RouteChannel, unsubscribes: bool)
      requires Valid()
      modifies this, owner.Keys
      ensures Valid()
      ensures abs == Removed(old(abs), rc.topic, rc, unsubscribes)
      ensures rc.topic !in old(abs).table || rc !in old(abs).table[rc.topic] ==> abs == old(abs)
      ensures rc.topic in old(abs).table ==>
                forall i :: 0 <= i < |old(abs).table[rc.topic]| && old(abs).table[rc.topic][i] == rc ==>
                  var cs := old(abs).table[rc.topic];
                  abs.table == if cs == [rc] && unsubscribes then old(abs).table - {rc.topic}
                               else old(abs).table[rc.topic := cs[..i] + cs[i + 1..]]
      ensures rc in ChannelsOf(old(abs).table, rc.topic) ==> rc !in old(closed)
      ensures closed == old(closed) + if rc in ChannelsOf(old(abs).table, rc.topic) then {rc} else {}
      ensures calls == old(calls) + RemoveCalls(old(abs), rc.topic, rc, unsubscribes)
      ensures owner == old(owner)
    {
      ghost var before := abs;
      RemovedIsConsistent(before, rc, unsubscribes, calls);
      RemovedIsOpen(before, rc, unsubscribes, closed);
      ListIsDistinct(before, rc.topic, calls);
      RemovedTable(before, rc.topic, rc, unsubscribes);
      abs := Removed(before, rc.topic, rc, unsubscribes);
      Detach(rc.topic, rc, unsubscribes, before);
    }

    /** Takes a channel out of the slice of its topic, and the topic out of the table
        if that was its last channel and the broker has unsubscribed it; r is the
        table so far. */
    method Detach(topic: string, c: RouteChannel, unsubscribes: bool, ghost r: Routes<RouteChannel?>)
      requires Holds(routes, owner, r.table) && (topic in routes ==> Distinct(r.table[topic]))
      modifies this`routes, this`calls, this`closed, owner.Keys
      ensures closed == old(closed) + if c in ChannelsOf(r.table, topic) then {c} else {}
      ensures calls == old(calls) + RemoveCalls(r, topic, c, unsubscribes)
      ensures Holds(routes, owner, Removed(r, topic, c, unsubscribes).table)
    {
      if topic !in routes {
        return;
      }
      assert HoldsAt(routes[topic], owner, topic, r.table[topic]);
      var l := routes[topic].len;
      var found := Shorten(topic, c, r.table);
      if found {
        closed := closed + {c};
        ShortenedTable(r, topic, c, unsubscribes);
        if l == 1 {
          Drop(topic, unsubscribes, r.table[topic := Without(r.table[topic], c)]);
        }
      }
    }

    /** Unsubscribes a topic without a channel; should that fail, it stays routed. */
    method Drop(topic: string, unsubscribes: bool, ghost table: map<string, seq<RouteChannel?>>)
      requires Holds(routes, owner, table)
      modifies this`routes, this`calls
      ensures calls == old(calls) + [Unsubscribe(topic, unsubscribes)]
      ensures Holds(routes, owner, if unsubscribes then table - {topic} else table)
    {
      calls := calls + [Unsubscribe(topic, unsubscribes)];
      if unsubscribes {
        routes := routes - {topic};
      }
    }

    /** Takes a channel out of the slice of a routed topic, which it may leave empty. */
    method Shorten(topic: string, c: RouteChannel, ghost table: map<string, seq<RouteChannel?>>) returns (found: bool)
      requires Holds(routes, owner, table) && topic in routes && Distinct(table[topic])
      modifies this`routes, owner.Keys
      ensures found == (c in table[topic])
      ensures Holds(routes, owner, if found then table[topic := Without(table[topic], c)] else table)
    {
      var s := routes[topic];
      assert forall t :: t in routes ==> HoldsAt(routes[t], owner, t, table[t]);
      found := ShiftOut(s, c);
      forall t | t in routes && t != topic
        ensures HoldsAt(routes[t], owner, t, table[t])
      {
        assert routes[t].arr != s.arr && routes[t].Live() == old(routes[t].Live());
      }
      if found {
        assert s.arr[..s.len - 1] == s.arr[..s.len][..s.len - 1] == Without(table[topic], c);
        routes := routes[topic := Slice(s.arr, s.len - 1)];
      }
    }
  }

  /** The channels of a list that match a message, in the order of the list. */
  ghost function Addressees(cs: seq<RouteChannel?>, correlationId: string): seq<RouteChannel?>
    requires null !in cs
  {
    if cs == [] then []
    else
      var c := cs[|cs| - 1];
      Addressees(cs[..|cs| - 1], correlationId) + if Matches(c.correlationId, correlationId) then [c] else []
  }

  /** All channels of a list with the message's correlation id, or with none like the
      message, and no others, in the order of the list. */
  ghost predicate AreTargets(targets: seq<RouteChannel?>, cs: seq<RouteChannel?>, correlationId: string) {
    && Selects(targets, cs)
    && (forall i :: 0 <= i < |targets| ==>
          targets[i] != null && targets[i] in cs && targets[i].correlationId == correlationId)
    && (forall i :: 0 <= i < |cs| ==>
          cs[i] != null && (cs[i].correlationId == correlationId ==> cs[i] in targets))
  }

  lemma {:induction false} AddresseesMatch(cs: seq<RouteChannel?>, correlationId: string)
    requires null !in cs && Distinct(cs)
    ensures AreTargets(Addressees(cs, correlationId), cs, correlationId)
  {
    if cs != [] {
      var rest, c := cs[..|cs| - 1], cs[|cs| - 1];
      AddresseesMatch(rest, correlationId);
      assert cs == rest + [c];
      SelectsSnoc(Addressees(rest, correlationId), rest, c);
    }
  }

  /** What the contracts of Add and Remove say of the table is what the steps of the
      interleaving model do, once channels are replaced by their names. */
  lemma AddIsStep(r: Routes<RouteChannel?>, c: RouteChannel, b: BrokerResults, name: RouteChannel? -> nat,
                  x: Runs.System, ctx: Runs.Ctx, capacity: nat)
    requires x.routes == Named(r, name)
    requires Runs.Enabled(x, Runs.Add(name(c), c.topic, c.correlationId, ctx, capacity, b))
    ensures Runs.Step(x, Runs.Add(name(c), c.topic, c.correlationId, ctx, capacity, b)).routes
            == Named(Added(r, c.topic, c, b), name)
    ensures var y := Runs.Step(x, Runs.Add(name(c), c.topic, c.correlationId, ctx, capacity, b));
            y.routes.table == if !b.publish || (c.topic !in x.routes.table && !b.subscribe) then x.routes.table
                              else if c.topic in x.routes.table then
                                x.routes.table[c.topic := x.routes.table[c.topic] + [name(c)]]
                              else x.routes.table[c.topic := [name(c)]]
  {
    AddedIsNamed(r, c.topic, c, b, name);
    AddedTable(x.routes, c.topic, name(c), b);
  }

  lemma RemoveIsStep(r: Routes<RouteChannel?>, c: RouteChannel, unsubscribes: bool, name: RouteChannel? -> nat,
                     x: Runs.System)
    requires x.routes == Named(r, name) && Runs.Enabled(x, Runs.Remove(name(c), unsubscribes))
    requires x.channels[name(c)].topic == c.topic
    requires forall i ::
               0 <= i < |ChannelsOf(r.table, c.topic)| && ChannelsOf(r.table, c.topic)[i] != c ==>
                 name(ChannelsOf(r.table, c.topic)[i]) != name(c)
    ensures Runs.Step(x, Runs.Remove(name(c), unsubscribes)).routes
            == Named(Removed(r, c.topic, c, unsubscribes), name)
    ensures Runs.Step(x, Runs.Remove(name(c), unsubscribes)).channels[name(c)].closed
            == (x.channels[name(c)].closed || c in ChannelsOf(r.table, c.topic))
  {
    RemovedIsNamed(r, c.topic, c, unsubscribes, name);
    NamesWithout(ChannelsOf(r.table, c.topic), c, name);
  }

  ghost predicate SameId(c: RouteChannel?, name: RouteChannel? -> nat, channels: map<nat, Runs.Channel>) {
    c != null && name(c) in channels && channels[name(c)].correlationId == c.correlationId
  }

  lemma AddresseesSnoc(cs: seq<RouteChannel?>, c: RouteChannel, correlationId: string)
    requires null !in cs
    ensures null !in cs + [c]
    ensures Addressees(cs + [c], correlationId)
            == Addressees(cs, correlationId) + if Matches(c.correlationId, correlationId) then [c] else []
  {
    assert (cs + [c])[..|cs|] == cs;
  }

  lemma MatchingOneMore(cs: seq<RouteChannel?>, c: RouteChannel, correlationId: string, name: RouteChannel? -> nat,
                        channels: map<nat, Runs.Channel>)
    requires null !in cs && SameId(c, name, channels)
    requires Runs.Matching(channels, NamesOf(cs, name), correlationId) == NamesOf(Addressees(cs, correlationId), name)
    ensures null !in cs + [c]
    ensures Runs.Matching(channels, NamesOf(cs + [c], name), correlationId)
            == NamesOf(Addressees(cs + [c], correlationId), name)
  {
    AddresseesSnoc(cs, c, correlationId);
    NamesOfSnoc(cs, c, name);
    Runs.MatchingSnoc(channels, NamesOf(cs, name), name(c), correlationId);
    NamesOfSnoc(Addressees(cs, correlationId), c, name);
  }

  lemma {:induction false} AddresseesAreMatching(cs: seq<RouteChannel?>, correlationId: string,
                                                 name: RouteChannel? -> nat, channels: map<nat, Runs.Channel>)
    requires null !in cs && forall i :: 0 <= i < |cs| ==> SameId(cs[i], name, channels)
    ensures Runs.Matching(channels, NamesOf(cs, name), correlationId) == NamesOf(Addressees(cs, correlationId), name)
  {
    if cs != [] {
      var rest, c := cs[..|cs| - 1], cs[|cs| - 1];
      AddresseesAreMatching(rest, correlationId, name, channels);
      MatchingOneMore(rest, c, correlationId, name, channels);
      assert cs == rest + [c];
    }
  }

  /** What the contract of DispatchTargets says is what a dispatch in the interleaving
      model does: once it has finished, it has served exactly those channels, in order. */
  lemma DispatchIsRun(r: Routes<RouteChannel?>, topic: string, correlationId: string, name: RouteChannel? -> nat,
                      x: Runs.System, d: nat, message: nat, b: seq<Runs.Label>)
    requires null !in ChannelsOf(r.table, topic)
    requires x.routes == Named(r, name) && Runs.Inv(x) && d !in x.dispatches
    requires forall i :: 0 <= i < |ChannelsOf(r.table, topic)| ==>
               SameId(ChannelsOf(r.table, topic)[i], name, x.channels)
    requires var y := Runs.Step(x, Runs.Begin(d, topic, correlationId, message));
             Runs.CanRun(y, b) && (d in Runs.Run(y, b).dispatches ==> !Runs.Active(Runs.Run(y, b).dispatches[d]))
    ensures var z := Runs.Run(Runs.Step(x, Runs.Begin(d, topic, correlationId, message)), b);
            && d in z.dispatches && |z.dispatches[d].targets| == |z.dispatches[d].outcomes|
            && Runs.Served(z.dispatches[d], |z.dispatches[d].targets|)
               == NamesOf(Addressees(ChannelsOf(r.table, topic), correlationId), name)
    ensures topic in r.table ==> forall i :: 0 <= i < |r.table[topic]| ==>
              var p := Runs.Run(Runs.Step(x, Runs.Begin(d, topic, correlationId, message)), b).dispatches[d];
              r.table[topic][i] != null
              && (name(r.table[topic][i]) in Runs.Served(p, |p.targets|)
                  <==> r.table[topic][i].correlationId == correlationId)
  {
    Runs.DispatchServesMatching(x, d, topic, correlationId, message, b);
    AddresseesAreMatching(ChannelsOf(r.table, topic), correlationId, name, x.channels);
    assert ChannelsOf(x.routes.table, topic) == NamesOf(ChannelsOf(r.table, topic), name);
    if topic in r.table {
      forall i | 0 <= i < |r.table[topic]|
        ensures name(r.table[topic][i]) in x.routes.table[topic] && SameId(r.table[topic][i], name, x.channels)
      {
        assert x.routes.table[topic][i] == name(r.table[topic][i]);
      }
    }
  }
}
