/**
 Requests and their results across any number of agents: response topics and
 correlation data as in the MQTT Version 5.0 standard, section 4.10.

 The broker may hand any published message to any agent, at any later time and any
 number of times. A correlation id is a fresh UUID: no two requests share one. A
 dispatch is one step, taken when it sends to its channel or finds its context done.
 */
module Correlation {
  import opened Routing
  import opened Streams
  import opened Topics

  type Agent = nat
  type CallId = nat

  datatype Identity = Identity(cluster: string, id: string)

  /** Publishing: the result router's write lock is held, the request is out and the
      results channel is not in the table. Ended: it never will be again. */
  datatype Phase = Publishing | Registered | Ended

  /** One call of PublishAction or PublishQuery; it names its results channel. */
  datatype Call = Call(agent: Agent, scope: Scope, pattern: Level, typeName: string, topic: string,
                       correlationId: string, phase: Phase)

  /** origin is the call a message comes from; nobody reads it. */
  datatype Message =
    | Request(responseTopic: string, correlationId: string, origin: CallId)
    | Result(topic: string, correlationId: string, origin: CallId)

  datatype Callback = Callback(responseTopic: string, correlationId: string, origin: CallId)

  datatype Delivery = Delivery(channel: CallId, origin: CallId)

  /** An agent has one router for results of actions and one for results of queries. */
  datatype RouterKey = RouterKey(agent: Agent, level: Level)

  type Table = map<string, seq<CallId>>

  datatype System = System(
    identities: map<Agent, Identity>,
    calls: map<CallId, Call>,
    routers: map<RouterKey, Table>,
    cancelled: set<CallId>,
    published: set<Message>,
    callbacks: set<Callback>,
    delivered: seq<Delivery>)

  datatype Label =
    | Publish(p: CallId, agent: Agent, scope: Scope, pattern: Level, typeName: string, correlationId: string)
    | Register(p: CallId)
    | Fail(p: CallId)
    | Cancel(p: CallId)
    | HandleRequest(m: Message)
    | Respond(callback: Callback)
    | HandleResult(agent: Agent, m: Message)
    | Remove(p: CallId)

  function Initial(identities: map<Agent, Identity>): System {
    System(identities, map[], map[], {}, {}, {}, [])
  }

  function ResultLevel(pattern: Level): Level {
    if pattern == Action then ActionResult else QueryResult
  }

  function RouterOf(c: Call): RouterKey {
    RouterKey(c.agent, ResultLevel(c.pattern))
  }

  /** The response topic of a call. */
  function TopicFor(identity: Identity, scope: Scope, pattern: Level, typeName: string): string {
    ResponseTopic(identity.cluster, scope, ResultLevel(pattern), typeName, identity.id)
  }

  function TableOf(routers: map<RouterKey, Table>, key: RouterKey): Table {
    if key in routers then routers[key] else map[]
  }

  predicate Locked(x: System, key: RouterKey) {
    exists p :: p in x.calls && x.calls[p].phase.Publishing? && RouterOf(x.calls[p]) == key
  }

  /** Channels that get a message with the given correlation id, in table order: those
      whose context is done are skipped, even if they are still in the table. */
  function Targets(calls: map<CallId, Call>, cancelled: set<CallId>, cs: seq<CallId>, correlationId: string):
    seq<CallId>
    requires Routed(calls, cs)
    decreases |cs|
  {
    if cs == [] then []
    else
      (if Matches(calls[cs[0]].correlationId, correlationId) && cs[0] !in cancelled then [cs[0]] else [])
      + Targets(calls, cancelled, cs[1..], correlationId)
  }

  function Deliveries(cs: seq<CallId>, origin: CallId): (ds: seq<Delivery>)
    ensures |ds| == |cs|
    ensures forall i :: 0 <= i < |cs| ==> ds[i] == Delivery(cs[i], origin)
  {
    seq(|cs|, i requires 0 <= i < |cs| => Delivery(cs[i], origin))
  }

  /** Every routed channel belongs to a call. */
  predicate Routed(calls: map<CallId, Call>, cs: seq<CallId>) {
    forall i :: 0 <= i < |cs| ==> cs[i] in calls
  }

  predicate HandlesAt(x: System, agent: Agent, m: Message, level: Level) {
    && m.Result?
    && Parse(m.topic).Addressed? && Parse(m.topic).level == level
    && level in {ActionResult, QueryResult}
    && !Locked(x, RouterKey(agent, level))
    && Routed(x.calls, ChannelsOf(TableOf(x.routers, RouterKey(agent, level)), m.topic))
  }

  predicate Enabled(x: System, l: Label) {
    match l
    case Publish(p, agent, scope, pattern, typeName, correlationId) =>
      && p !in x.calls && agent in x.identities && pattern in {Action, Query} && ValidName(typeName)
      && correlationId != NO_CORRELATION
      && (forall q :: q in x.calls ==> x.calls[q].correlationId != correlationId)
      && !Locked(x, RouterKey(agent, ResultLevel(pattern)))
    case Register(p) =>
      p in x.calls && x.calls[p].phase.Publishing?
    case Fail(p) =>
      p in x.calls && x.calls[p].phase.Publishing?
    case Cancel(p) => true
    case HandleRequest(m) =>
      m in x.published && m.Request?
    case Respond(callback) =>
      callback in x.callbacks
    case HandleResult(agent, m) =>
      m in x.published && m.Result? && Parse(m.topic).Addressed? && HandlesAt(x, agent, m, Parse(m.topic).level)
    case Remove(p) =>
      p in x.calls && x.calls[p].phase.Registered? && p in x.cancelled && !Locked(x, RouterOf(x.calls[p]))
  }

  function WithPhase(x: System, p: CallId, phase: Phase): System
    requires p in x.calls
  {
    x.(calls := x.calls[p := x.calls[p].(phase := phase)])
  }

  function WithChannels(x: System, key: RouterKey, topic: string, cs: seq<CallId>): System {
    x.(routers := x.routers[key := TableOf(x.routers, key)[topic := cs]])
  }

  function Registering(x: System, p: CallId): System
    requires p in x.calls
  {
    var c := x.calls[p];
    var cs := ChannelsOf(TableOf(x.routers, RouterOf(c)), c.topic);
    WithChannels(WithPhase(x, p, Registered), RouterOf(c), c.topic, cs + [p])
  }

  function Removing(x: System, p: CallId): System
    requires p in x.calls
  {
    var c := x.calls[p];
    var cs := ChannelsOf(TableOf(x.routers, RouterOf(c)), c.topic);
    WithChannels(WithPhase(x, p, Ended), RouterOf(c), c.topic, Without(cs, p))
  }

  function Step(x: System, l: Label): System
    requires Enabled(x, l)
  {
    match l
    case Publish(p, agent, scope, pattern, typeName, correlationId) =>
      var topic := TopicFor(x.identities[agent], scope, pattern, typeName);
      var c := Call(agent, scope, pattern, typeName, topic, correlationId, Publishing);
      x.(calls := x.calls[p := c], published := x.published + {Request(topic, correlationId, p)})
    case Register(p) =>
      Registering(x, p)
    case Fail(p) =>
      WithPhase(x, p, Ended)
    case Cancel(p) =>
      x.(cancelled := x.cancelled + {p})
    case HandleRequest(m) =>
      x.(callbacks := x.callbacks + {Callback(m.responseTopic, m.correlationId, m.origin)})
    case Respond(callback) =>
      x.(published := x.published + {Result(callback.responseTopic, callback.correlationId, callback.origin)})
    case HandleResult(agent, m) =>
      var cs := ChannelsOf(TableOf(x.routers, RouterKey(agent, Parse(m.topic).level)), m.topic);
      x.(delivered := x.delivered + Deliveries(Targets(x.calls, x.cancelled, cs, m.correlationId), m.origin))
    case Remove(p) =>
      Removing(x, p)
  }

  predicate CanRun(x: System, ls: seq<Label>)
    decreases |ls|
  {
    ls == [] || (Enabled(x, ls[0]) && CanRun(Step(x, ls[0]), ls[1..]))
  }

  function Run(x: System, ls: seq<Label>): System
    requires CanRun(x, ls)
    decreases |ls|
  {
    if ls == [] then x else Run(Step(x, ls[0]), ls[1..])
  }

  // ---------------------------------------------------------- the invariant

  type Calls = map<CallId, Call>

  /** Correlation ids tell calls apart. */
  predicate IdsUnique(calls: Calls) {
    && (forall p :: p in calls ==> calls[p].correlationId != NO_CORRELATION)
    && (forall p, q :: p in calls && q in calls && p != q ==> calls[p].correlationId != calls[q].correlationId)
  }

  predicate TopicPrinted(identities: map<Agent, Identity>, c: Call) {
    && c.agent in identities && ValidName(identities[c.agent].cluster) && ValidName(c.typeName)
    && c.topic == TopicFor(identities[c.agent], c.scope, c.pattern, c.typeName)
  }

  predicate TopicsPrinted(identities: map<Agent, Identity>, calls: Calls) {
    && (forall a :: a in identities ==> ValidName(identities[a].cluster))
    && (forall p {:trigger TopicPrinted(identities, calls[p])} :: p in calls ==> TopicPrinted(identities, calls[p]))
  }

  predicate OneWriter(calls: Calls) {
    forall p, q ::
      p in calls && q in calls && p != q && calls[p].phase.Publishing? && calls[q].phase.Publishing? ==>
        RouterOf(calls[p]) != RouterOf(calls[q])
  }

  /** A channel is found under its own topic in its own router, once, exactly while
      registered. */
  predicate HoldsRegistered(calls: Calls, routers: map<RouterKey, Table>, key: RouterKey, topic: string) {
    var cs := ChannelsOf(TableOf(routers, key), topic);
    && Distinct(cs)
    && Routed(calls, cs)
    && (forall p :: p in calls ==>
          (p in cs <==> calls[p].phase.Registered? && RouterOf(calls[p]) == key && calls[p].topic == topic))
  }

  ghost predicate TablesHoldRegistered(calls: Calls, routers: map<RouterKey, Table>) {
    forall key, topic :: HoldsRegistered(calls, routers, key, topic)
  }

  predicate Genuine(calls: Calls, topic: string, correlationId: string, origin: CallId) {
    origin in calls && topic == calls[origin].topic && correlationId == calls[origin].correlationId
  }

  predicate MessagesGenuine(calls: Calls, published: set<Message>, callbacks: set<Callback>) {
    && (forall m :: m in published ==>
          Genuine(calls, if m.Request? then m.responseTopic else m.topic, m.correlationId, m.origin))
    && (forall b :: b in callbacks ==> Genuine(calls, b.responseTopic, b.correlationId, b.origin))
  }

  predicate DeliveriesGenuine(calls: Calls, delivered: seq<Delivery>) {
    forall i :: 0 <= i < |delivered| ==>
      && delivered[i].origin in calls && delivered[i].channel == delivered[i].origin
      && !calls[delivered[i].origin].phase.Publishing?
  }

  ghost predicate Inv(x: System) {
    && IdsUnique(x.calls) && TopicsPrinted(x.identities, x.calls) && OneWriter(x.calls)
    && TablesHoldRegistered(x.calls, x.routers)
    && MessagesGenuine(x.calls, x.published, x.callbacks)
    && DeliveriesGenuine(x.calls, x.delivered)
  }

  /** The call's results channel is registered, and its context not done. */
  predicate Receptive(x: System, p: CallId) {
    p in x.calls && x.calls[p].phase.Registered? && p !in x.cancelled
  }

  // ------------------------------------------------------------ one dispatch

  lemma {:induction false} TargetsOf(calls: Calls, cancelled: set<CallId>, cs: seq<CallId>, p: CallId)
    requires Routed(calls, cs) && Distinct(cs)
    requires p in calls && calls[p].correlationId != NO_CORRELATION
    requires forall q :: q in calls && q != p ==> calls[q].correlationId != calls[p].correlationId
    ensures Targets(calls, cancelled, cs, calls[p].correlationId) == if p in cs && p !in cancelled then [p] else []
  {
    if cs != [] {
      assert Distinct(cs[1..]);
      TargetsOf(calls, cancelled, cs[1..], p);
      assert p in cs <==> cs[0] == p || p in cs[1..];
    }
  }

  /** A result that an agent can dispatch goes to its request's channel once, if that is
      registered with this agent, and to no other channel; it is skipped if and only if
      the call's context is done. The agent that called cannot dispatch the result while
      the call is not registered yet. */
  lemma ResultReachesItsCall(x: System, agent: Agent, m: Message)
    requires Inv(x) && Enabled(x, HandleResult(agent, m))
    ensures m.origin in x.calls
    ensures agent == x.calls[m.origin].agent ==> !x.calls[m.origin].phase.Publishing?
    ensures Step(x, HandleResult(agent, m)).delivered == x.delivered +
            if agent == x.calls[m.origin].agent && Receptive(x, m.origin)
            then [Delivery(m.origin, m.origin)] else []
  {
    var p := m.origin;
    assert Genuine(x.calls, m.topic, m.correlationId, p);
    var c := x.calls[p];
    assert Parse(m.topic).level == ResultLevel(c.pattern) by {
      assert TopicPrinted(x.identities, c);
      var identity := x.identities[c.agent];
      PrintedTopicIsRead(identity.cluster, c.scope, ResultLevel(c.pattern), c.typeName, identity.id);
    }
    var key := RouterKey(agent, ResultLevel(c.pattern));
    assert HoldsRegistered(x.calls, x.routers, key, m.topic);
    TargetsOf(x.calls, x.cancelled, ChannelsOf(TableOf(x.routers, key), m.topic), p);
  }

  // ------------------------------------------------------------- every step

  /** Calls keep everything but their phase, and none starts publishing again. */
  predicate Extends(before: Calls, after: Calls) {
    forall p :: p in before ==>
      && p in after && after[p] == before[p].(phase := after[p].phase)
      && (after[p].phase.Publishing? ==> before[p].phase.Publishing?)
  }

  lemma HistoryStays(x: System, after: Calls)
    requires Inv(x) && Extends(x.calls, after)
    ensures MessagesGenuine(after, x.published, x.callbacks) && DeliveriesGenuine(after, x.delivered)
  {
    forall m | m in x.published
      ensures Genuine(after, if m.Request? then m.responseTopic else m.topic, m.correlationId, m.origin)
    {
      assert Genuine(x.calls, if m.Request? then m.responseTopic else m.topic, m.correlationId, m.origin);
    }
    forall b | b in x.callbacks
      ensures Genuine(after, b.responseTopic, b.correlationId, b.origin)
    {
      assert Genuine(x.calls, b.responseTopic, b.correlationId, b.origin);
    }
  }

  lemma PrintedInAnyPhase(identities: map<Agent, Identity>, c: Call, phase: Phase)
    ensures TopicPrinted(identities, c) == TopicPrinted(identities, c.(phase := phase))
  {
  }

  lemma PhaseKeepsTopics(identities: map<Agent, Identity>, calls: Calls, p: CallId, phase: Phase)
    requires TopicsPrinted(identities, calls) && p in calls
    ensures TopicsPrinted(identities, calls[p := calls[p].(phase := phase)])
  {
    var after := calls[p := calls[p].(phase := phase)];
    forall q | q in after
      ensures TopicPrinted(identities, after[q])
    {
      PrintedInAnyPhase(identities, calls[q], after[q].phase);
    }
  }

  lemma PhaseKeepsIds(calls: Calls, p: CallId, phase: Phase)
    requires IdsUnique(calls) && OneWriter(calls) && p in calls && !phase.Publishing?
    ensures var after := calls[p := calls[p].(phase := phase)];
            IdsUnique(after) && OneWriter(after) && Extends(calls, after)
  {
  }

  /** A call moves on: nothing but the tables depends on more than the calls. */
  lemma PhaseKeepsCalls(x: System, p: CallId, phase: Phase)
    requires Inv(x) && p in x.calls && !phase.Publishing?
    ensures var after := WithPhase(x, p, phase).calls;
            && IdsUnique(after) && TopicsPrinted(x.identities, after) && OneWriter(after)
            && MessagesGenuine(after, x.published, x.callbacks) && DeliveriesGenuine(after, x.delivered)
            && Extends(x.calls, after)
  {
    PhaseKeepsIds(x.calls, p, phase);
    PhaseKeepsTopics(x.identities, x.calls, p, phase);
    HistoryStays(x, WithPhase(x, p, phase).calls);
  }

  /** Tables stay right when no call enters or leaves the registered phase. */
  lemma TablesStay(before: Calls, after: Calls, routers: map<RouterKey, Table>)
    requires Extends(before, after) && TablesHoldRegistered(before, routers)
    requires forall p :: p in after && after[p].phase.Registered? ==> p in before && before[p].phase.Registered?
    requires forall p :: p in before && before[p].phase.Registered? ==> after[p].phase.Registered?
    ensures TablesHoldRegistered(after, routers)
  {
    forall key, topic
      ensures HoldsRegistered(after, routers, key, topic)
    {
      assert HoldsRegistered(before, routers, key, topic);
    }
  }

  lemma NewCallKeepsTopics(identities: map<Agent, Identity>, calls: Calls, p: CallId, c: Call)
    requires TopicsPrinted(identities, calls) && TopicPrinted(identities, c)
    ensures TopicsPrinted(identities, calls[p := c])
  {
  }

  /** A new call under a fresh correlation id, on a router that nobody writes to. */
  lemma NewCallKeepsIds(calls: Calls, p: CallId, c: Call)
    requires IdsUnique(calls) && OneWriter(calls)
    requires p !in calls && c.correlationId != NO_CORRELATION
    requires forall q :: q in calls ==> calls[q].correlationId != c.correlationId
    requires forall q :: q in calls && calls[q].phase.Publishing? ==> RouterOf(calls[q]) != RouterOf(c)
    ensures IdsUnique(calls[p := c]) && OneWriter(calls[p := c])
  {
  }

  lemma PublishKeepsInv(x: System, l: Label)
    requires Inv(x) && Enabled(x, l) && l.Publish?
    ensures Inv(Step(x, l))
  {
    var y := Step(x, l);
    var c := y.calls[l.p];
    assert RouterOf(c) == RouterKey(l.agent, ResultLevel(l.pattern));
    NewCallKeepsIds(x.calls, l.p, c);
    NewCallKeepsTopics(x.identities, x.calls, l.p, c);
    TablesStay(x.calls, y.calls, x.routers);
    HistoryStays(x, y.calls);
    assert Genuine(y.calls, c.topic, l.correlationId, l.p);
  }

  lemma RegisterKeepsTables(x: System, p: CallId)
    requires Inv(x) && p in x.calls && x.calls[p].phase.Publishing?
    ensures var y := Registering(x, p);
            TablesHoldRegistered(y.calls, y.routers)
    ensures var y, c := Registering(x, p), x.calls[p];
            var key := RouterKey(c.agent, if c.pattern == Action then ActionResult else QueryResult);
            var table := if key in x.routers then x.routers[key] else map[];
            && y.calls == x.calls[p := c.(phase := Registered)]
            && y.routers == x.routers[key := table[c.topic :=
                                        (if c.topic in table then table[c.topic] else []) + [p]]]
  {
    var y := Registering(x, p);
    var c := x.calls[p];
    forall key, topic
      ensures HoldsRegistered(y.calls, y.routers, key, topic)
    {
      assert HoldsRegistered(x.calls, x.routers, key, topic);
      var was := ChannelsOf(TableOf(x.routers, key), topic);
      assert ChannelsOf(TableOf(y.routers, key), topic)
          == if key == RouterOf(c) && topic == c.topic then was + [p] else was;
    }
  }

  lemma RemoveKeepsTables(x: System, p: CallId)
    requires Inv(x) && p in x.calls && x.calls[p].phase.Registered?
    ensures var y := Removing(x, p);
            TablesHoldRegistered(y.calls, y.routers)
  {
    var y := Removing(x, p);
    var c := x.calls[p];
    forall key, topic
      ensures HoldsRegistered(y.calls, y.routers, key, topic)
    {
      assert HoldsRegistered(x.calls, x.routers, key, topic);
      var was := ChannelsOf(TableOf(x.routers, key), topic);
      if key == RouterOf(c) && topic == c.topic {
        WithoutKeepsOthers(was, p);
        forall q | q in y.calls && q != p
          ensures q in Without(was, p) <==> q in was
        {
          WithoutLosesOnly(was, p, q);
        }
        assert ChannelsOf(TableOf(y.routers, key), topic) == Without(was, p);
      } else {
        assert ChannelsOf(TableOf(y.routers, key), topic) == was;
      }
    }
  }

  lemma HandleResultKeepsInv(x: System, agent: Agent, m: Message)
    requires Inv(x) && Enabled(x, HandleResult(agent, m))
    ensures Inv(Step(x, HandleResult(agent, m)))
  {
    ResultReachesItsCall(x, agent, m);
  }

  lemma MessageKeepsInv(x: System, l: Label)
    requires Inv(x) && Enabled(x, l) && (l.HandleRequest? || l.Respond?)
    ensures Inv(Step(x, l))
  {
    if l.HandleRequest? {
      assert Genuine(x.calls, l.m.responseTopic, l.m.correlationId, l.m.origin);
    } else {
      assert Genuine(x.calls, l.callback.responseTopic, l.callback.correlationId, l.callback.origin);
    }
  }

  lemma StepKeepsInv(x: System, l: Label)
    requires Inv(x) && Enabled(x, l)
    ensures Inv(Step(x, l))
  {
    match l
    case Publish(_, _, _, _, _, _) =>
      PublishKeepsInv(x, l);
    case Register(p) =>
      PhaseKeepsCalls(x, p, Registered);
      RegisterKeepsTables(x, p);
    case Cancel(_) =>
    case Fail(p) =>
      PhaseKeepsCalls(x, p, Ended);
      TablesStay(x.calls, Step(x, l).calls, x.routers);
    case Remove(p) =>
      PhaseKeepsCalls(x, p, Ended);
      RemoveKeepsTables(x, p);
    case HandleRequest(_) =>
      MessageKeepsInv(x, l);
    case Respond(_) =>
      MessageKeepsInv(x, l);
    case HandleResult(agent, m) =>
      HandleResultKeepsInv(x, agent, m);
  }

  lemma {:induction false} RunKeepsInv(x: System, ls: seq<Label>)
    requires Inv(x) && CanRun(x, ls)
    ensures Inv(Run(x, ls))
    decreases |ls|
  {
    if ls != [] {
      StepKeepsInv(x, ls[0]);
      RunKeepsInv(Step(x, ls[0]), ls[1..]);
    }
  }

  /** In every run of any agents, a result is delivered only to the channel of the
      request it answers, and never before that channel is registered. When the
      requesting agent dispatches it while the channel is registered, it is delivered
      exactly once, or skipped because the call's context is done. */
  lemma EveryResultIsCorrelated(identities: map<Agent, Identity>, ls: seq<Label>, agent: Agent, m: Message)
    requires forall a :: a in identities ==> ValidName(identities[a].cluster)
    requires CanRun(Initial(identities), ls)
    ensures var x := Run(Initial(identities), ls);
            && DeliveriesGenuine(x.calls, x.delivered)
            && (Enabled(x, HandleResult(agent, m)) ==>
                  && m.origin in x.calls
                  && (agent == x.calls[m.origin].agent ==> !x.calls[m.origin].phase.Publishing?)
                  && Step(x, HandleResult(agent, m)).delivered == x.delivered +
                     if agent == x.calls[m.origin].agent && Receptive(x, m.origin)
                     then [Delivery(m.origin, m.origin)] else [])
  {
    RunKeepsInv(Initial(identities), ls);
    var x := Run(Initial(identities), ls);
    if Enabled(x, HandleResult(agent, m)) {
      ResultReachesItsCall(x, agent, m);
    }
  }
}
