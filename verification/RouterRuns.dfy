/**
 Every interleaving of the router's operations: registration, dispatching (one
 channel at a time, under the read lock), cancellation, the removal that follows
 it, and receivers taking messages. Sending on, or closing, a closed channel is a
 panic.
 */
module RouterRuns {
  import opened Routing
  import opened Streams

  type Ctx = nat
  type Message = nat
  type DispatchId = nat

  /** A delivered message, tagged with the dispatch that delivered it. */
  datatype Packet = Packet(origin: DispatchId, message: Message)

  /** history is everything ever enqueued, in order. */
  datatype Channel = Channel(
    topic: string,
    correlationId: string,
    ctx: Ctx,
    capacity: nat,
    buffer: seq<Packet>,
    received: seq<Packet>,
    history: seq<Packet>,
    closed: bool)

  datatype Outcome = NotMatching | Enqueued | Skipped

  /** A dispatch, holding the read lock until every target has its outcome. checked
      tells that the next target's context has passed the first select. */
  datatype Dispatch = Dispatch(
    topic: string,
    correlationId: string,
    message: Message,
    targets: seq<Chan>,
    outcomes: seq<Outcome>,
    checked: bool,
    cancelledBefore: set<Ctx>)

  datatype System = System(
    routes: Routes<Chan>,
    channels: map<Chan, Channel>,
    cancelled: set<Ctx>,
    dispatches: map<DispatchId, Dispatch>,
    panicked: bool)

  datatype Label =
    | Add(c: Chan, topic: string, correlationId: string, ctx: Ctx, capacity: nat, broker: BrokerResults)
    | Begin(d: DispatchId, topic: string, correlationId: string, message: Message)
    | Pass(d: DispatchId)
    | Check(d: DispatchId)
    | GiveUp(d: DispatchId)
    | Send(d: DispatchId)
    | HandOver(d: DispatchId)
    | Receive(c: Chan)
    | Cancel(ctx: Ctx)
    | Remove(c: Chan, unsubscribes: bool)

  const INITIAL := System(Routes(map[], {}, {}), map[], {}, map[], false)

  predicate Active(p: Dispatch) {
    |p.outcomes| < |p.targets|
  }

  /** The write lock is free of readers. */
  predicate NoReaders(x: System) {
    forall d :: d in x.dispatches ==> !Active(x.dispatches[d])
  }

  function Target(p: Dispatch): Chan
    requires Active(p)
  {
    p.targets[|p.outcomes|]
  }

  predicate Addressed(x: System, d: DispatchId) {
    d in x.dispatches && Active(x.dispatches[d]) && Target(x.dispatches[d]) in x.channels
  }

  predicate TargetMatches(x: System, d: DispatchId)
    requires Addressed(x, d)
  {
    Matches(x.channels[Target(x.dispatches[d])].correlationId, x.dispatches[d].correlationId)
  }

  predicate TargetCancelled(x: System, d: DispatchId)
    requires Addressed(x, d)
  {
    x.channels[Target(x.dispatches[d])].ctx in x.cancelled
  }

  /** The dispatch is through with its current target. */
  function Conclude(x: System, d: DispatchId, o: Outcome): System
    requires d in x.dispatches
  {
    var p := x.dispatches[d];
    x.(dispatches := x.dispatches[d := p.(outcomes := p.outcomes + [o], checked := false)])
  }

  /** The message goes to the current target; a closed channel panics. */
  function Deliver(x: System, d: DispatchId, handOver: bool): System
    requires Addressed(x, d)
  {
    var p := x.dispatches[d];
    var c := Target(p);
    var k := x.channels[c];
    var packet := Packet(d, p.message);
    var k' := k.(history := k.history + [packet],
                 buffer := if handOver then k.buffer else k.buffer + [packet],
                 received := if handOver then k.received + [packet] else k.received);
    Conclude(x.(channels := x.channels[c := k'], panicked := x.panicked || k.closed), d, Enqueued)
  }

  function Opened(l: Label): Channel
    requires l.Add?
  {
    Channel(l.topic, l.correlationId, l.ctx, l.capacity, [], [], [], false)
  }

  predicate Enabled(x: System, l: Label) {
    match l
    case Add(c, _, _, _, _, _) => NoReaders(x) && c !in x.channels
    case Begin(d, _, _, _) => d !in x.dispatches
    case Pass(d) => Addressed(x, d) && !TargetMatches(x, d)
    case Check(d) => Addressed(x, d) && TargetMatches(x, d) && !x.dispatches[d].checked
    case GiveUp(d) => Addressed(x, d) && x.dispatches[d].checked && TargetCancelled(x, d)
    case Send(d) =>
      Addressed(x, d) && x.dispatches[d].checked
      && var k := x.channels[Target(x.dispatches[d])]; |k.buffer| < k.capacity
    case HandOver(d) =>
      Addressed(x, d) && x.dispatches[d].checked && x.channels[Target(x.dispatches[d])].buffer == []
    case Receive(c) => c in x.channels && x.channels[c].buffer != []
    case Cancel(ctx) => true
    case Remove(c, _) => NoReaders(x) && c in x.channels && x.channels[c].ctx in x.cancelled
  }

  /** The effect of one step. Check is the first select of dispatch: it returns on a
      cancelled context. GiveUp, Send and HandOver are the cases of the second one,
      HandOver being a send that a waiting receiver takes at once. A channel that
      Add does not accept is never seen by anybody. */
  function Step(x: System, l: Label): System
    requires Enabled(x, l)
  {
    match l
    case Add(c, topic, _, _, _, broker) =>
      var y := x.(routes := Added(x.routes, topic, c, broker));
      if Accepted(x.routes, topic, broker) then y.(channels := x.channels[c := Opened(l)]) else y
    case Begin(d, topic, cid, message) =>
      var p := Dispatch(topic, cid, message, ChannelsOf(x.routes.table, topic), [], false, x.cancelled);
      x.(dispatches := x.dispatches[d := p])
    case Pass(d) => Conclude(x, d, NotMatching)
    case Check(d) =>
      if TargetCancelled(x, d) then Conclude(x, d, Skipped)
      else x.(dispatches := x.dispatches[d := x.dispatches[d].(checked := true)])
    case GiveUp(d) => Conclude(x, d, Skipped)
    case Send(d) => Deliver(x, d, false)
    case HandOver(d) => Deliver(x, d, true)
    case Receive(c) =>
      var k := x.channels[c];
      x.(channels := x.channels[c := k.(buffer := k.buffer[1..], received := k.received + [k.buffer[0]])])
    case Cancel(ctx) => x.(cancelled := x.cancelled + {ctx})
    case Remove(c, unsubscribes) =>
      var k := x.channels[c];
      if c in ChannelsOf(x.routes.table, k.topic) then
        x.(routes := Removed(x.routes, k.topic, c, unsubscribes),
           channels := x.channels[c := k.(closed := true)],
           panicked := x.panicked || k.closed)
      else x
  }

  // ------------------------------------------------------- the invariant

  predicate Has(ps: seq<Packet>, d: DispatchId) {
    exists i :: 0 <= i < |ps| && ps[i].origin == d
  }

  /** Every route leads to an open channel of that topic, once. */
  predicate TableOk(x: System) {
    forall topic :: topic in x.routes.table ==> ListOk(x, topic, x.routes.table[topic])
  }

  predicate ListOk(x: System, topic: string, cs: seq<Chan>) {
    && Distinct(cs)
    && forall c :: c in cs ==> c in x.channels && x.channels[c].topic == topic && !x.channels[c].closed
  }

  /** What was enqueued is what was received and what is buffered, in order; the
      buffer keeps to its capacity; nothing is enqueued twice by one dispatch, nor
      without that dispatch having recorded it. */
  predicate ChannelOk(x: System, c: Chan)
    requires c in x.channels
  {
    var k := x.channels[c];
    && k.history == k.received + k.buffer
    && |k.buffer| <= k.capacity
    && (forall i, j :: 0 <= i < j < |k.history| ==> k.history[i].origin != k.history[j].origin)
    && forall i :: 0 <= i < |k.history| ==> Recorded(x, c, k.history[i])
  }

  predicate Recorded(x: System, c: Chan, packet: Packet) {
    && packet.origin in x.dispatches
    && packet.message == x.dispatches[packet.origin].message
    && EnqueuedAt(x.dispatches[packet.origin], c)
  }

  predicate EnqueuedAt(p: Dispatch, c: Chan) {
    exists i :: 0 <= i < |p.outcomes| && i < |p.targets| && p.targets[i] == c && p.outcomes[i] == Enqueued
  }

  predicate DispatchOk(x: System, d: DispatchId)
    requires d in x.dispatches
  {
    var p := x.dispatches[d];
    && |p.outcomes| <= |p.targets|
    && Distinct(p.targets)
    && (forall c :: c in p.targets ==> c in x.channels && x.channels[c].topic == p.topic)
    && (Active(p) ==> p.targets == ChannelsOf(x.routes.table, p.topic))
    && p.cancelledBefore <= x.cancelled
    && (forall i :: 0 <= i < |p.outcomes| ==> OutcomeOk(x, d, p, p.targets[i], p.outcomes[i]))
    && (p.checked ==> Active(p) && Matches(x.channels[Target(p)].correlationId, p.correlationId)
                      && x.channels[Target(p)].ctx !in p.cancelledBefore)
  }

  /** What an outcome says about its channel. */
  predicate OutcomeOk(x: System, d: DispatchId, p: Dispatch, c: Chan, o: Outcome) {
    && c in x.channels
    && var k := x.channels[c];
    match o
    case NotMatching => !Matches(k.correlationId, p.correlationId)
    case Enqueued => Matches(k.correlationId, p.correlationId) && Has(k.history, d) && k.ctx !in p.cancelledBefore
    case Skipped => Matches(k.correlationId, p.correlationId) && !Has(k.history, d) && k.ctx in x.cancelled
  }

  predicate Inv(x: System) {
    && !x.panicked
    && TableOk(x)
    && (forall c :: c in x.channels ==> ChannelOk(x, c))
    && (forall d :: d in x.dispatches ==> DispatchOk(x, d))
    && BrokerAgrees(x.routes)
  }

  // ------------------------------------------------------- preservation

  /** What later states keep of a dispatch: its addressees, and its outcomes so far. */
  predicate Extends(p: Dispatch, q: Dispatch) {
    q.targets == p.targets && q.message == p.message && p.outcomes <= q.outcomes
  }

  lemma ChannelFrame(x: System, y: System, c: Chan)
    requires c in x.channels && ChannelOk(x, c) && c in y.channels
    requires x.channels[c] == y.channels[c]
    requires forall d :: d in x.dispatches ==> d in y.dispatches && Extends(x.dispatches[d], y.dispatches[d])
    ensures ChannelOk(y, c)
  {
    var k := x.channels[c];
    forall i | 0 <= i < |k.history|
      ensures Recorded(y, c, k.history[i])
    {
      RecordedFrame(x, y, c, k.history[i]);
    }
  }

  lemma RecordedFrame(x: System, y: System, c: Chan, packet: Packet)
    requires Recorded(x, c, packet)
    requires forall d :: d in x.dispatches ==> d in y.dispatches && Extends(x.dispatches[d], y.dispatches[d])
    ensures Recorded(y, c, packet)
  {
    var p, q := x.dispatches[packet.origin], y.dispatches[packet.origin];
    var i :| 0 <= i < |p.outcomes| && i < |p.targets| && p.targets[i] == c && p.outcomes[i] == Enqueued;
    assert q.targets[i] == c && q.outcomes[i] == Enqueued;
  }

  /** What later states keep of a channel, as far as dispatch d is concerned. */
  predicate SameFor(d: DispatchId, k: Channel, l: Channel) {
    && l.topic == k.topic && l.correlationId == k.correlationId && l.ctx == k.ctx
    && (Has(l.history, d) <==> Has(k.history, d))
  }

  predicate ChannelsSameFor(x: System, y: System, d: DispatchId) {
    forall c :: c in x.channels ==> c in y.channels && SameFor(d, x.channels[c], y.channels[c])
  }

  lemma DispatchFrame(x: System, y: System, d: DispatchId)
    requires d in x.dispatches && DispatchOk(x, d)
    requires d in y.dispatches && y.dispatches[d] == x.dispatches[d]
    requires ChannelsSameFor(x, y, d)
    requires x.cancelled <= y.cancelled
    requires y.routes.table == x.routes.table || !Active(x.dispatches[d])
    ensures DispatchOk(y, d)
  {
    var p := x.dispatches[d];
    forall i | 0 <= i < |p.outcomes|
      ensures OutcomeOk(y, d, p, p.targets[i], p.outcomes[i])
    {
      assert OutcomeOk(x, d, p, p.targets[i], p.outcomes[i]);
      assert SameFor(d, x.channels[p.targets[i]], y.channels[p.targets[i]]);
    }
    forall c | c in p.targets
      ensures c in y.channels && y.channels[c].topic == p.topic
    {
      assert c in x.channels && SameFor(d, x.channels[c], y.channels[c]);
    }
    if p.checked {
      assert Target(p) in p.targets;
      assert SameFor(d, x.channels[Target(p)], y.channels[Target(p)]);
    }
  }

  lemma ListFrame(x: System, y: System, topic: string, cs: seq<Chan>)
    requires ListOk(x, topic, cs)
    requires forall c :: c in x.channels && c in cs ==>
               && c in y.channels && y.channels[c].topic == x.channels[c].topic
               && y.channels[c].closed == x.channels[c].closed
    ensures ListOk(y, topic, cs)
  {
  }

  lemma TableFrame(x: System, y: System)
    requires TableOk(x) && y.routes == x.routes
    requires forall c :: c in x.channels ==>
               && c in y.channels && y.channels[c].topic == x.channels[c].topic
               && y.channels[c].closed == x.channels[c].closed
    ensures TableOk(y)
  {
    forall topic | topic in y.routes.table
      ensures ListOk(y, topic, y.routes.table[topic])
    {
      ListFrame(x, y, topic, x.routes.table[topic]);
    }
  }

  /** The current target of a dispatch has not had the message yet. */
  lemma NotYetDelivered(x: System, d: DispatchId)
    requires Inv(x) && Addressed(x, d)
    ensures !Has(x.channels[Target(x.dispatches[d])].history, d)
    ensures !x.channels[Target(x.dispatches[d])].closed
  {
    var p := x.dispatches[d];
    var c := Target(p);
    assert DispatchOk(x, d) && ChannelOk(x, c);
    forall i | 0 <= i < |x.channels[c].history|
      ensures x.channels[c].history[i].origin != d
    {
      assert Recorded(x, c, x.channels[c].history[i]);
      assert forall j :: 0 <= j < |p.outcomes| ==> p.targets[j] != p.targets[|p.outcomes|];
    }
    assert c in p.targets && p.topic in x.routes.table;
    assert ListOk(x, p.topic, x.routes.table[p.topic]);
  }

  lemma ConcludedDispatchOk(x: System, y: System, d: DispatchId, o: Outcome)
    requires d in x.dispatches && Active(x.dispatches[d]) && DispatchOk(x, d)
    requires d in y.dispatches && y.dispatches[d] == Conclude(x, d, o).dispatches[d]
    requires y.routes == x.routes && y.cancelled == x.cancelled
    requires forall c :: c in x.channels ==> c in y.channels && y.channels[c].topic == x.channels[c].topic
    requires forall c :: c in x.channels && c != Target(x.dispatches[d]) ==> y.channels[c] == x.channels[c]
    requires OutcomeOk(y, d, y.dispatches[d], Target(x.dispatches[d]), o)
    ensures DispatchOk(y, d)
  {
    var p, q := x.dispatches[d], y.dispatches[d];
    forall i | 0 <= i < |q.outcomes|
      ensures OutcomeOk(y, d, q, q.targets[i], q.outcomes[i])
    {
      if i < |p.outcomes| {
        assert OutcomeOk(x, d, p, p.targets[i], p.outcomes[i]);
        assert p.targets[i] != p.targets[|p.outcomes|];
      }
    }
  }

  lemma ConcludeKeepsInv(x: System, d: DispatchId, o: Outcome)
    requires Inv(x) && Addressed(x, d)
    requires OutcomeOk(x, d, x.dispatches[d], Target(x.dispatches[d]), o) && o != Enqueued
    ensures Inv(Conclude(x, d, o))
  {
    var y := Conclude(x, d, o);
    TableFrame(x, y);
    forall c | c in y.channels
      ensures ChannelOk(y, c)
    {
      ChannelFrame(x, y, c);
    }
    forall e | e in y.dispatches
      ensures DispatchOk(y, e)
    {
      assert DispatchOk(x, e);
      if e == d {
        ConcludedDispatchOk(x, y, d, o);
      } else {
        DispatchFrame(x, y, e);
      }
    }
  }

  lemma HasSnoc(ps: seq<Packet>, packet: Packet, d: DispatchId)
    ensures Has(ps + [packet], d) <==> Has(ps, d) || packet.origin == d
  {
    assert (ps + [packet])[|ps|] == packet;
    if Has(ps, d) {
      var i :| 0 <= i < |ps| && ps[i].origin == d;
      assert (ps + [packet])[i].origin == d;
    }
  }

  lemma DeliverKeepsDispatches(x: System, d: DispatchId, handOver: bool, e: DispatchId)
    requires Addressed(x, d) && DispatchOk(x, d) && x.dispatches[d].checked
    requires e in x.dispatches && DispatchOk(x, e)
    ensures DispatchOk(Deliver(x, d, handOver), e)
  {
    var y, p := Deliver(x, d, handOver), x.dispatches[d];
    HasSnoc(x.channels[Target(p)].history, Packet(d, p.message), e);
    if e == d {
      ConcludedDispatchOk(x, y, d, Enqueued);
    } else {
      DispatchFrame(x, y, e);
    }
  }

  lemma DeliverKeepsInv(x: System, d: DispatchId, handOver: bool)
    requires Inv(x) && Addressed(x, d) && x.dispatches[d].checked
    requires var k := x.channels[Target(x.dispatches[d])];
      if handOver then k.buffer == [] else |k.buffer| < k.capacity
    ensures Inv(Deliver(x, d, handOver))
  {
    var y, c := Deliver(x, d, handOver), Target(x.dispatches[d]);
    NotYetDelivered(x, d);
    TableFrame(x, y);
    assert forall e :: e in x.dispatches ==> e in y.dispatches && Extends(x.dispatches[e], y.dispatches[e]);
    forall b | b in y.channels
      ensures ChannelOk(y, b)
    {
      assert ChannelOk(x, b);
      if b == c {
        DeliveredChannelOk(x, d, handOver);
      } else {
        ChannelFrame(x, y, b);
      }
    }
    forall e | e in y.dispatches
      ensures DispatchOk(y, e)
    {
      assert DispatchOk(x, d) && DispatchOk(x, e);
      DeliverKeepsDispatches(x, d, handOver, e);
    }
  }

  lemma DeliveredChannelOk(x: System, d: DispatchId, handOver: bool)
    requires Addressed(x, d) && ChannelOk(x, Target(x.dispatches[d]))
    requires !Has(x.channels[Target(x.dispatches[d])].history, d)
    requires var k := x.channels[Target(x.dispatches[d])];
      if handOver then k.buffer == [] else |k.buffer| < k.capacity
    ensures ChannelOk(Deliver(x, d, handOver), Target(x.dispatches[d]))
  {
    var y, p := Deliver(x, d, handOver), x.dispatches[d];
    var c := Target(p);
    var k, k' := x.channels[c], y.channels[c];
    var n := |k.history|;
    forall i | 0 <= i < |k'.history|
      ensures Recorded(y, c, k'.history[i])
      ensures i < n ==> k'.history[i].origin != d
    {
      if i < n {
        assert k'.history[i] == k.history[i];
        RecordedFrame(x, y, c, k.history[i]);
      } else {
        var q := y.dispatches[d];
        assert q.targets[|p.outcomes|] == c && q.outcomes[|p.outcomes|] == Enqueued;
      }
    }
    assert k.received + k.buffer + [Packet(d, p.message)] == k.received + (k.buffer + [Packet(d, p.message)]);
    var packet := [Packet(d, p.message)];
    assert k.received + [] == k.received && k.received + packet + [] == k.received + packet;
  }

  lemma AddKeepsTable(x: System, l: Label)
    requires Inv(x) && l.Add? && Enabled(x, l)
    ensures TableOk(Step(x, l)) && BrokerAgrees(Step(x, l).routes)
  {
    var y, topic := Step(x, l), l.topic;
    OperationsKeepBrokerAgreement(x.routes, topic, l.c, l.broker);
    forall t | t in y.routes.table
      ensures ListOk(y, t, y.routes.table[t])
    {
      var before := ChannelsOf(x.routes.table, t);
      assert ListOk(x, t, before);
      assert forall c :: c in before ==> c in x.channels;
      assert forall c :: c in before + [l.c] <==> c in before || c == l.c;
    }
  }

  lemma AddKeepsInv(x: System, l: Label)
    requires Inv(x) && l.Add? && Enabled(x, l)
    ensures Inv(Step(x, l))
  {
    var y := Step(x, l);
    AddKeepsTable(x, l);
    assert forall c :: c in x.channels ==> c in y.channels && y.channels[c] == x.channels[c];
    forall c | c in y.channels
      ensures ChannelOk(y, c)
    {
      if c in x.channels {
        ChannelFrame(x, y, c);
      }
    }
    forall d | d in y.dispatches
      ensures DispatchOk(y, d)
    {
      assert ChannelsSameFor(x, y, d);
      DispatchFrame(x, y, d);
    }
  }

  lemma RemoveKeepsTable(x: System, c: Chan, unsubscribes: bool)
    requires TableOk(x) && BrokerAgrees(x.routes) && Enabled(x, Remove(c, unsubscribes))
    requires c in ChannelsOf(x.routes.table, x.channels[c].topic)
    ensures TableOk(Step(x, Remove(c, unsubscribes))) && BrokerAgrees(Step(x, Remove(c, unsubscribes)).routes)
  {
    var y, topic := Step(x, Remove(c, unsubscribes)), x.channels[c].topic;
    var before := ChannelsOf(x.routes.table, topic);
    assert ListOk(x, topic, before);
    OperationsKeepBrokerAgreement(x.routes, topic, c, BrokerResults(true, true, unsubscribes));
    WithoutKeepsOthers(before, c);
    forall t | t in y.routes.table
      ensures ListOk(y, t, y.routes.table[t])
    {
      assert ListOk(x, t, x.routes.table[t]);
    }
  }

  lemma RemoveKeepsChannels(x: System, c: Chan, unsubscribes: bool)
    requires Inv(x) && Enabled(x, Remove(c, unsubscribes))
    requires c in ChannelsOf(x.routes.table, x.channels[c].topic)
    ensures var y := Step(x, Remove(c, unsubscribes));
      forall b :: b in y.channels ==> ChannelOk(y, b)
  {
    var y := Step(x, Remove(c, unsubscribes));
    forall b | b in y.channels
      ensures ChannelOk(y, b)
    {
      assert ChannelOk(x, b);
      if b == c {
        ClosedChannelOk(x, y, b);
      } else {
        ChannelFrame(x, y, b);
      }
    }
  }

  lemma RemoveKeepsInv(x: System, c: Chan, unsubscribes: bool)
    requires Inv(x) && Enabled(x, Remove(c, unsubscribes))
    ensures Inv(Step(x, Remove(c, unsubscribes)))
  {
    var y, topic := Step(x, Remove(c, unsubscribes)), x.channels[c].topic;
    if c in ChannelsOf(x.routes.table, topic) {
      assert ListOk(x, topic, x.routes.table[topic]);
      RemoveKeepsTable(x, c, unsubscribes);
      RemoveKeepsChannels(x, c, unsubscribes);
      forall d | d in y.dispatches
        ensures DispatchOk(y, d)
      {
        assert ChannelsSameFor(x, y, d);
        DispatchFrame(x, y, d);
      }
    }
  }

  lemma ClosedChannelOk(x: System, y: System, c: Chan)
    requires c in x.channels && ChannelOk(x, c)
    requires c in y.channels && y.channels[c] == x.channels[c].(closed := true)
    requires y.dispatches == x.dispatches
    ensures ChannelOk(y, c)
  {
    forall i | 0 <= i < |x.channels[c].history|
      ensures Recorded(y, c, x.channels[c].history[i])
    {
      assert Recorded(x, c, x.channels[c].history[i]);
    }
  }

  lemma BeginKeepsInv(x: System, l: Label)
    requires Inv(x) && l.Begin? && Enabled(x, l)
    ensures Inv(Step(x, l))
  {
    var y := Step(x, l);
    TableFrame(x, y);
    forall c | c in y.channels
      ensures ChannelOk(y, c)
    {
      ChannelFrame(x, y, c);
    }
    forall d | d in y.dispatches
      ensures DispatchOk(y, d)
    {
      if d != l.d {
        DispatchFrame(x, y, d);
      } else if l.topic in x.routes.table {
        assert ListOk(x, l.topic, x.routes.table[l.topic]);
      }
    }
  }

  lemma ReceiveKeepsInv(x: System, c: Chan)
    requires Inv(x) && Enabled(x, Receive(c))
    ensures Inv(Step(x, Receive(c)))
  {
    var y := Step(x, Receive(c));
    TableFrame(x, y);
    forall b | b in y.channels
      ensures ChannelOk(y, b)
    {
      assert ChannelOk(x, b);
      if b == c {
        ReceiveKeepsChannelOk(x, c);
      } else {
        ChannelFrame(x, y, b);
      }
    }
    forall d | d in y.dispatches
      ensures DispatchOk(y, d)
    {
      assert ChannelsSameFor(x, y, d);
      DispatchFrame(x, y, d);
    }
  }

  lemma CancelKeepsInv(x: System, ctx: Ctx)
    requires Inv(x)
    ensures Inv(Step(x, Cancel(ctx)))
  {
    var y := Step(x, Cancel(ctx));
    TableFrame(x, y);
    forall b | b in y.channels
      ensures ChannelOk(y, b)
    {
      ChannelFrame(x, y, b);
    }
    forall d | d in y.dispatches
      ensures DispatchOk(y, d)
    {
      DispatchFrame(x, y, d);
    }
  }

  lemma PassedCheckKeepsInv(x: System, d: DispatchId)
    requires Inv(x) && Enabled(x, Check(d)) && !TargetCancelled(x, d)
    ensures Inv(Step(x, Check(d)))
  {
    var y := Step(x, Check(d));
    TableFrame(x, y);
    forall b | b in y.channels
      ensures ChannelOk(y, b)
    {
      ChannelFrame(x, y, b);
    }
    forall e | e in y.dispatches
      ensures DispatchOk(y, e)
    {
      assert DispatchOk(x, e);
      if e == d {
        CheckKeepsDispatchOk(x, d);
      } else {
        DispatchFrame(x, y, e);
      }
    }
  }

  lemma ReceiveKeepsChannelOk(x: System, c: Chan)
    requires Enabled(x, Receive(c)) && ChannelOk(x, c)
    ensures ChannelOk(Step(x, Receive(c)), c)
  {
    var k := x.channels[c];
    assert k.received + k.buffer == k.received + [k.buffer[0]] + k.buffer[1..];
    forall i | 0 <= i < |k.history|
      ensures Recorded(Step(x, Receive(c)), c, k.history[i])
    {
      RecordedFrame(x, Step(x, Receive(c)), c, k.history[i]);
    }
  }

  lemma CheckKeepsDispatchOk(x: System, d: DispatchId)
    requires Enabled(x, Check(d)) && DispatchOk(x, d) && !TargetCancelled(x, d)
    ensures DispatchOk(Step(x, Check(d)), d)
  {
    var y, p := Step(x, Check(d)), x.dispatches[d];
    forall i | 0 <= i < |p.outcomes|
      ensures OutcomeOk(y, d, y.dispatches[d], p.targets[i], p.outcomes[i])
    {
      assert OutcomeOk(x, d, p, p.targets[i], p.outcomes[i]);
    }
  }

  lemma StepKeepsInv(x: System, l: Label)
    requires Inv(x) && Enabled(x, l)
    ensures Inv(Step(x, l))
  {
    match l
    case Add(_, _, _, _, _, _) => AddKeepsInv(x, l);
    case Begin(_, _, _, _) => BeginKeepsInv(x, l);
    case Pass(d) => ConcludeKeepsInv(x, d, NotMatching);
    case Check(d) =>
      if TargetCancelled(x, d) {
        NotYetDelivered(x, d);
        ConcludeKeepsInv(x, d, Skipped);
      } else {
        PassedCheckKeepsInv(x, d);
      }
    case GiveUp(d) =>
      NotYetDelivered(x, d);
      assert DispatchOk(x, d);
      ConcludeKeepsInv(x, d, Skipped);
    case Send(d) => DeliverKeepsInv(x, d, false);
    case HandOver(d) => DeliverKeepsInv(x, d, true);
    case Receive(c) => ReceiveKeepsInv(x, c);
    case Cancel(ctx) => CancelKeepsInv(x, ctx);
    case Remove(c, unsubscribes) => RemoveKeepsInv(x, c, unsubscribes);
  }

  // ------------------------------------------------------- runs

  predicate CanRun(x: System, ls: seq<Label>)
    decreases |ls|
  {
    ls != [] ==> Enabled(x, ls[0]) && CanRun(Step(x, ls[0]), ls[1..])
  }

  /** The state after the steps ls. */
  function Run(x: System, ls: seq<Label>): System
    requires CanRun(x, ls)
    decreases |ls|
  {
    if ls == [] then x else Run(Step(x, ls[0]), ls[1..])
  }

  lemma {:induction false} RunKeepsInv(x: System, ls: seq<Label>)
    requires Inv(x) && CanRun(x, ls)
    ensures Inv(Run(x, ls))
    decreases |ls|
  {
    if ls != [] {
      StepKeepsInv(x, ls[0]);
      RunKeepsInv(Step(x, ls[0]), ls[1..]);
    }
  }

  /** In every interleaving: no send on a closed channel and no second close, every
      routed channel is open and routed once, and the broker's subscriptions are the
      routed topics and the leaked ones. */
  lemma EveryRunIsSafe(ls: seq<Label>)
    requires CanRun(INITIAL, ls)
    ensures var x := Run(INITIAL, ls);
      && !x.panicked
      && BrokerAgrees(x.routes)
      && forall t :: t in x.routes.table ==>
           && Distinct(x.routes.table[t])
           && forall c :: c in x.routes.table[t] ==>
                c in x.channels && !x.channels[c].closed && x.channels[c].topic == t
  {
    assert Inv(INITIAL);
    RunKeepsInv(INITIAL, ls);
    var x := Run(INITIAL, ls);
    forall t | t in x.routes.table
      ensures ListOk(x, t, x.routes.table[t])
    {
    }
  }

  predicate ClosedAreCancelled(x: System) {
    forall c :: c in x.channels && x.channels[c].closed ==> x.channels[c].ctx in x.cancelled
  }

  lemma {:induction false} RunClosesOnlyCancelled(x: System, ls: seq<Label>)
    requires ClosedAreCancelled(x) && CanRun(x, ls)
    ensures ClosedAreCancelled(Run(x, ls))
    decreases |ls|
  {
    if ls != [] {
      assert ClosedAreCancelled(Step(x, ls[0]));
      RunClosesOnlyCancelled(Step(x, ls[0]), ls[1..]);
    }
  }

  /** A receiver that finds its channel closed can rely on its context being done. */
  lemma ClosedOnlyAfterCancel(ls: seq<Label>, c: Chan)
    requires CanRun(INITIAL, ls)
    requires c in Run(INITIAL, ls).channels && Run(INITIAL, ls).channels[c].closed
    ensures Run(INITIAL, ls).channels[c].ctx in Run(INITIAL, ls).cancelled
  {
    RunClosesOnlyCancelled(INITIAL, ls);
  }

  /** How often dispatch d was enqueued on a channel. */
  function Count(ps: seq<Packet>, d: DispatchId): nat {
    if ps == [] then 0 else Count(ps[..|ps| - 1], d) + if ps[|ps| - 1].origin == d then 1 else 0
  }

  lemma {:induction false} CountIsHas(ps: seq<Packet>, d: DispatchId)
    requires forall i, j :: 0 <= i < j < |ps| ==> ps[i].origin != ps[j].origin
    ensures Count(ps, d) == if Has(ps, d) then 1 else 0
  {
    if ps != [] {
      var n := |ps| - 1;
      CountIsHas(ps[..n], d);
      HasSnoc(ps[..n], ps[n], d);
      assert ps == ps[..n] + [ps[n]];
      if Has(ps[..n], d) {
        var i :| 0 <= i < n && ps[..n][i].origin == d;
        assert ps[i].origin == d;
      }
    }
  }

  lemma {:induction false} RunConcat(x: System, a: seq<Label>, b: seq<Label>)
    requires CanRun(x, a + b)
    ensures CanRun(x, a) && CanRun(Run(x, a), b) && Run(x, a + b) == Run(Run(x, a), b)
    decreases |a|
  {
    if a == [] {
      assert a + b == b;
    } else {
      assert (a + b)[1..] == a[1..] + b;
      RunConcat(Step(x, a[0]), a[1..], b);
    }
  }

  /** A dispatch keeps the channels, the filter and the message it began with. */
  lemma {:induction false} DispatchIsFixed(x: System, ls: seq<Label>, d: DispatchId)
    requires CanRun(x, ls) && d in x.dispatches
    ensures var y := Run(x, ls);
      && d in y.dispatches
      && y.dispatches[d].(outcomes := x.dispatches[d].outcomes, checked := x.dispatches[d].checked) == x.dispatches[d]
    decreases |ls|
  {
    if ls != [] {
      DispatchIsFixed(Step(x, ls[0]), ls[1..], d);
    }
  }

  /** What has become of dispatch d on channel c, in any state of any run. */
  lemma FinishedDispatch(x: System, d: DispatchId, c: Chan)
    requires Inv(x) && d in x.dispatches && !Active(x.dispatches[d]) && c in x.channels
    ensures var p, k := x.dispatches[d], x.channels[c];
      && (if c in p.targets && k.correlationId == p.correlationId
          then || (Count(k.history, d) == 1 && k.ctx !in p.cancelledBefore)
               || (Count(k.history, d) == 0 && k.ctx in x.cancelled)
          else Count(k.history, d) == 0)
      && forall i :: 0 <= i < |k.history| && k.history[i].origin == d ==> k.history[i].message == p.message
  {
    var p, k := x.dispatches[d], x.channels[c];
    assert ChannelOk(x, c) && DispatchOk(x, d);
    CountIsHas(k.history, d);
    if c in p.targets {
      var i :| 0 <= i < |p.targets| && p.targets[i] == c;
      assert OutcomeOk(x, d, p, c, p.outcomes[i]);
    }
    forall i | 0 <= i < |k.history| && k.history[i].origin == d
      ensures k.history[i].message == p.message
    {
      assert Recorded(x, c, k.history[i]);
    }
    if Has(k.history, d) {
      var j :| 0 <= j < |k.history| && k.history[j].origin == d;
      assert Recorded(x, c, k.history[j]);
      var i :| 0 <= i < |p.outcomes| && i < |p.targets| && p.targets[i] == c && p.outcomes[i] == Enqueued;
      assert OutcomeOk(x, d, p, c, p.outcomes[i]);
    }
  }

  /** Delivery conservation. Let a run do a, then begin a dispatch, then do b, by
      which that dispatch has finished. A channel that was registered for the topic
      when it began, and has the correlation id of the message, none included, has been
      given the message exactly once, and then its context was not done at the beginning;
      or not at all, and then its context is done by now. No other channel has been given
      it, and nothing else has been given in its name. */
  lemma EveryDispatchIsConserved(a: seq<Label>, d: DispatchId, topic: string, correlationId: string, message: Message,
                                 b: seq<Label>, c: Chan)
    requires CanRun(INITIAL, a + [Begin(d, topic, correlationId, message)] + b)
    requires var x := Run(INITIAL, a + [Begin(d, topic, correlationId, message)] + b);
      c in x.channels && (d in x.dispatches ==> !Active(x.dispatches[d]))
    ensures CanRun(INITIAL, a)
    ensures var atBegin, x := Run(INITIAL, a), Run(INITIAL, a + [Begin(d, topic, correlationId, message)] + b);
      var k := x.channels[c];
      && (if topic in atBegin.routes.table && c in atBegin.routes.table[topic] && k.correlationId == correlationId
          then || (Count(k.history, d) == 1 && k.ctx !in atBegin.cancelled)
               || (Count(k.history, d) == 0 && k.ctx in x.cancelled)
          else Count(k.history, d) == 0)
      && forall i :: 0 <= i < |k.history| && k.history[i].origin == d ==> k.history[i].message == message
  {
    var begin := [Begin(d, topic, correlationId, message)];
    RunConcat(INITIAL, a + begin, b);
    RunConcat(INITIAL, a, begin);
    var atBegin := Run(INITIAL, a);
    assert begin[1..] == [];
    assert Run(atBegin, begin) == Step(atBegin, begin[0]);
    DispatchIsFixed(Run(INITIAL, a + begin), b, d);
    assert Inv(INITIAL);
    RunKeepsInv(INITIAL, a + begin + b);
    FinishedDispatch(Run(INITIAL, a + begin + b), d, c);
  }

  /** The channels of a list that match a message, in the order of the list. */
  function Matching(channels: map<Chan, Channel>, cs: seq<Chan>, correlationId: string): seq<Chan> {
    if cs == [] then []
    else
      var c := cs[|cs| - 1];
      Matching(channels, cs[..|cs| - 1], correlationId)
      + if c in channels && Matches(channels[c].correlationId, correlationId) then [c] else []
  }

  /** They are those with the message's correlation id, or with none like the message. */
  lemma {:induction false} MatchingHaveId(channels: map<Chan, Channel>, cs: seq<Chan>, correlationId: string)
    requires Distinct(cs) && forall c :: c in cs ==> c in channels
    ensures var found := Matching(channels, cs, correlationId);
      && Selects(found, cs)
      && forall c :: c in found <==> c in cs && channels[c].correlationId == correlationId
  {
    if cs != [] {
      var rest, c := cs[..|cs| - 1], cs[|cs| - 1];
      assert cs == rest + [c];
      MatchingHaveId(channels, rest, correlationId);
      SelectsSnoc(Matching(channels, rest, correlationId), rest, c);
    }
  }

  lemma MatchingSnoc(channels: map<Chan, Channel>, cs: seq<Chan>, c: Chan, correlationId: string)
    requires c in channels
    ensures Matching(channels, cs + [c], correlationId)
            == Matching(channels, cs, correlationId)
               + if Matches(channels[c].correlationId, correlationId) then [c] else []
  {
    assert (cs + [c])[..|cs|] == cs;
  }

  /** Of the first n targets of a dispatch, those to which it sent, or tried to until
      their contexts were done. */
  function Served(p: Dispatch, n: nat): seq<Chan>
    requires n <= |p.outcomes| && n <= |p.targets|
  {
    if n == 0 then [] else Served(p, n - 1) + if p.outcomes[n - 1] != NotMatching then [p.targets[n - 1]] else []
  }

  lemma {:induction false} ServedAreMatching(x: System, d: DispatchId, n: nat)
    requires d in x.dispatches && DispatchOk(x, d) && n <= |x.dispatches[d].outcomes|
    ensures var p := x.dispatches[d];
      Served(p, n) == Matching(x.channels, p.targets[..n], p.correlationId)
  {
    if n > 0 {
      var p := x.dispatches[d];
      ServedAreMatching(x, d, n - 1);
      assert OutcomeOk(x, d, p, p.targets[n - 1], p.outcomes[n - 1]);
      assert p.targets[..n][..n - 1] == p.targets[..n - 1];
    }
  }

  lemma {:induction false} CorrelationIsFixed(x: System, ls: seq<Label>, c: Chan)
    requires CanRun(x, ls) && c in x.channels
    ensures c in Run(x, ls).channels && Run(x, ls).channels[c].correlationId == x.channels[c].correlationId
    decreases |ls|
  {
    if ls != [] {
      CorrelationIsFixed(Step(x, ls[0]), ls[1..], c);
    }
  }

  lemma {:induction false} MatchingIsFixed(x: System, ls: seq<Label>, cs: seq<Chan>, correlationId: string)
    requires CanRun(x, ls) && forall c :: c in cs ==> c in x.channels
    ensures Matching(Run(x, ls).channels, cs, correlationId) == Matching(x.channels, cs, correlationId)
  {
    if cs != [] {
      CorrelationIsFixed(x, ls, cs[|cs| - 1]);
      MatchingIsFixed(x, ls, cs[..|cs| - 1], correlationId);
    }
  }

  /** A dispatch that has finished has served, in order, the channels that were routed
      and matched when it began, whatever happened in between. */
  lemma DispatchServesMatching(x: System, d: DispatchId, topic: string, correlationId: string, message: Message,
                               b: seq<Label>)
    requires Inv(x) && d !in x.dispatches
    requires var y := Step(x, Begin(d, topic, correlationId, message));
             CanRun(y, b) && (d in Run(y, b).dispatches ==> !Active(Run(y, b).dispatches[d]))
    ensures var z := Run(Step(x, Begin(d, topic, correlationId, message)), b);
      && d in z.dispatches && |z.dispatches[d].targets| == |z.dispatches[d].outcomes|
      && Served(z.dispatches[d], |z.dispatches[d].targets|)
         == Matching(x.channels, ChannelsOf(x.routes.table, topic), correlationId)
    ensures var served := var p := Run(Step(x, Begin(d, topic, correlationId, message)), b).dispatches[d];
                          Served(p, |p.targets|);
      var routed := if topic in x.routes.table then x.routes.table[topic] else [];
      && Selects(served, routed)
      && forall c :: c in served <==> c in routed && c in x.channels && x.channels[c].correlationId == correlationId
  {
    var begin := Begin(d, topic, correlationId, message);
    var y := Step(x, begin);
    StepKeepsInv(x, begin);
    DispatchIsFixed(y, b, d);
    RunKeepsInv(y, b);
    var z := Run(y, b);
    var p := z.dispatches[d];
    assert DispatchOk(z, d);
    ServedAreMatching(z, d, |p.targets|);
    assert p.targets[..|p.targets|] == p.targets == ChannelsOf(x.routes.table, topic);
    if topic in x.routes.table {
      assert ListOk(x, topic, x.routes.table[topic]);
    }
    MatchingIsFixed(y, b, p.targets, correlationId);
    MatchingHaveId(x.channels, p.targets, correlationId);
  }

  /** On every channel, what was received followed by what is still buffered is
      what was enqueued, in that order; the buffer stays within its capacity; and
      every message on it is the one its dispatch was called with. */
  lemma EveryChannelIsFifo(ls: seq<Label>, c: Chan)
    requires CanRun(INITIAL, ls) && c in Run(INITIAL, ls).channels
    ensures var x := Run(INITIAL, ls);
      var k := x.channels[c];
      && k.received + k.buffer == k.history
      && |k.buffer| <= k.capacity
      && forall i :: 0 <= i < |k.history| ==>
           && k.history[i].origin in x.dispatches
           && k.history[i].message == x.dispatches[k.history[i].origin].message
           && c in x.dispatches[k.history[i].origin].targets
  {
    assert Inv(INITIAL);
    RunKeepsInv(INITIAL, ls);
    var x := Run(INITIAL, ls);
    assert ChannelOk(x, c);
    forall i | 0 <= i < |x.channels[c].history|
      ensures Recorded(x, c, x.channels[c].history[i])
    {
    }
  }
}
