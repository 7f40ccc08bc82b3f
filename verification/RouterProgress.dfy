/**
 The life of a channel from its registration to its removal, and that no operation of
 the router has to wait for ever if receivers take their messages.
 */
module RouterProgress {
  import opened Routing
  import opened Streams
  import opened RouterRuns

  // ------------------------------------------------------- a channel's life

  predicate IsRouted(x: System, topic: string, c: Chan) {
    topic in x.routes.table && c in x.routes.table[topic]
  }

  /** The channel was registered by this label, and is in the table. */
  predicate IsRoutedAs(x: System, l: Label)
    requires l.Add?
  {
    && l.c in x.channels && IsRouted(x, l.topic, l.c)
    && var k := x.channels[l.c];
    k.topic == l.topic && k.correlationId == l.correlationId && k.ctx == l.ctx && k.capacity == l.capacity
  }

  /** Removing takes the channel and no other out of the table, in order, and closes it. */
  lemma RemovalTakesOnlyItsChannel(x: System, c: Chan, unsubscribes: bool)
    requires Inv(x) && Enabled(x, Remove(c, unsubscribes))
    ensures var y := Step(x, Remove(c, unsubscribes));
      && (forall t :: !IsRouted(y, t, c))
      && (forall t, d :: d != c ==> (IsRouted(y, t, d) <==> IsRouted(x, t, d)))
      && (forall t :: t in y.routes.table ==> t in x.routes.table && Selects(y.routes.table[t], x.routes.table[t]))
      && c in y.channels && y.channels[c].closed == (x.channels[c].closed || IsRouted(x, x.channels[c].topic, c))
      && forall d :: d in x.channels && d != c ==> d in y.channels && y.channels[d] == x.channels[d]
  {
    var y, topic := Step(x, Remove(c, unsubscribes)), x.channels[c].topic;
    assert forall t :: t in x.routes.table ==> ListOk(x, t, x.routes.table[t]);
    forall t | t in x.routes.table
      ensures Selects(x.routes.table[t], x.routes.table[t])
    {
      SelectsAll(x.routes.table[t]);
    }
    if IsRouted(x, topic, c) {
      var cs := x.routes.table[topic];
      WithoutKeepsOthers(cs, c);
      WithoutSelects(cs, c);
      forall d | d != c
        ensures d in Without(cs, c) <==> d in cs
      {
        WithoutLosesOnly(cs, c, d);
      }
    }
  }

  lemma StepKeepsRouted(x: System, l: Label, add: Label)
    requires Inv(x) && Enabled(x, l) && add.Add? && IsRoutedAs(x, add)
    requires !(l.Remove? && l.c == add.c)
    ensures IsRoutedAs(Step(x, l), add)
  {
    if l.Remove? {
      RemovalTakesOnlyItsChannel(x, l.c, l.unsubscribes);
    }
  }

  lemma {:induction false} RunKeepsRouted(x: System, ls: seq<Label>, add: Label)
    requires Inv(x) && CanRun(x, ls) && add.Add? && IsRoutedAs(x, add)
    requires forall i :: 0 <= i < |ls| && ls[i].Remove? ==> ls[i].c != add.c
    ensures IsRoutedAs(Run(x, ls), add)
    decreases |ls|
  {
    if ls != [] {
      StepKeepsInv(x, ls[0]);
      StepKeepsRouted(x, ls[0], add);
      RunKeepsRouted(Step(x, ls[0]), ls[1..], add);
    }
  }

  lemma RegisteredIsRouted(x: System, add: Label)
    requires add.Add? && Enabled(x, add)
    requires add.broker.publish && (add.topic in x.routes.table || add.broker.subscribe)
    ensures var y := Step(x, add);
      && IsRoutedAs(y, add)
      && y.routes.table == x.routes.table[add.topic :=
                             (if add.topic in x.routes.table then x.routes.table[add.topic] else []) + [add.c]]
  {
    assert add.c in ChannelsOf(x.routes.table, add.topic) + [add.c];
  }

  lemma RoutedIsOpen(x: System, add: Label)
    requires Inv(x) && add.Add? && IsRoutedAs(x, add)
    ensures !x.channels[add.c].closed
  {
    assert ListOk(x, add.topic, x.routes.table[add.topic]);
  }

  /** A registration whose broker calls succeed appends its channel to the list of its
      topic, and leaves the other lists alone. The channel keeps the parameters of the
      registration and stays routed and open until it is removed. */
  lemma RegisteredUntilRemoved(a: seq<Label>, add: Label, b: seq<Label>)
    requires CanRun(INITIAL, a) && add.Add? && Enabled(Run(INITIAL, a), add)
    requires var x := Run(INITIAL, a);
      add.broker.publish && (add.topic in x.routes.table || add.broker.subscribe)
    requires CanRun(Step(Run(INITIAL, a), add), b)
    requires forall i :: 0 <= i < |b| && b[i].Remove? ==> b[i].c != add.c
    ensures var x, y := Run(INITIAL, a), Step(Run(INITIAL, a), add);
      y.routes.table == x.routes.table[add.topic :=
                          (if add.topic in x.routes.table then x.routes.table[add.topic] else []) + [add.c]]
    ensures var z := Run(Step(Run(INITIAL, a), add), b);
      IsRoutedAs(z, add) && !z.channels[add.c].closed
  {
    var x := Run(INITIAL, a);
    assert Inv(INITIAL);
    RunKeepsInv(INITIAL, a);
    StepKeepsInv(x, add);
    RegisteredIsRouted(x, add);
    RunKeepsRouted(Step(x, add), b, add);
    RunKeepsInv(Step(x, add), b);
    RoutedIsOpen(Run(Step(x, add), b), add);
  }

  /** One whose broker calls fail changes nobody's registration. */
  lemma RejectedIsNotRegistered(a: seq<Label>, add: Label)
    requires CanRun(INITIAL, a) && add.Add? && Enabled(Run(INITIAL, a), add)
    requires var x := Run(INITIAL, a);
      !add.broker.publish || (add.topic !in x.routes.table && !add.broker.subscribe)
    ensures var x, y := Run(INITIAL, a), Step(Run(INITIAL, a), add);
      y.routes.table == x.routes.table && y.channels == x.channels
  {
  }

  /** The contexts that are done are those that were cancelled. */
  lemma {:induction false} CancelledExactly(x: System, ls: seq<Label>, ctx: Ctx)
    requires CanRun(x, ls)
    ensures ctx in Run(x, ls).cancelled <==> ctx in x.cancelled || Cancel(ctx) in ls
    decreases |ls|
  {
    if ls != [] {
      CancelledExactly(Step(x, ls[0]), ls[1..], ctx);
      assert Cancel(ctx) in ls <==> ls[0] == Cancel(ctx) || Cancel(ctx) in ls[1..];
    }
  }

  /** A receiver gets the oldest message that was sent to it and not yet received. */
  lemma ReceiverGetsOldest(ls: seq<Label>, c: Chan)
    requires CanRun(INITIAL, ls) && Enabled(Run(INITIAL, ls), Receive(c))
    ensures var x, y := Run(INITIAL, ls), Step(Run(INITIAL, ls), Receive(c));
      var k := x.channels[c];
      && |k.received| < |k.history|
      && c in y.channels && y.channels[c].history == k.history
      && y.channels[c].received == k.received + [k.history[|k.received|]]
  {
    assert Inv(INITIAL);
    RunKeepsInv(INITIAL, ls);
    assert ChannelOk(Run(INITIAL, ls), c);
  }

  // ------------------------------------------------------- nothing blocks

  lemma RunCons(x: System, l: Label, rest: seq<Label>)
    requires Enabled(x, l) && CanRun(Step(x, l), rest)
    ensures CanRun(x, [l] + rest) && Run(x, [l] + rest) == Run(Step(x, l), rest)
  {
    assert ([l] + rest)[1..] == rest;
  }

  lemma {:induction false} RunAppend(x: System, a: seq<Label>, b: seq<Label>)
    requires CanRun(x, a) && CanRun(Run(x, a), b)
    ensures CanRun(x, a + b) && Run(x, a + b) == Run(Run(x, a), b)
    decreases |a|
  {
    if a == [] {
      assert a + b == b;
    } else {
      RunAppend(Step(x, a[0]), a[1..], b);
      assert (a + b)[1..] == a[1..] + b;
    }
  }

  /** Steps of a dispatch and of the receivers. */
  predicate Serves(l: Label, d: DispatchId) {
    l in {Pass(d), Check(d), Send(d), HandOver(d)} || l.Receive?
  }

  predicate AllServe(ls: seq<Label>, d: DispatchId) {
    forall i :: 0 <= i < |ls| ==> Serves(ls[i], d)
  }

  /** Nothing but the one dispatch and the channels' contents has changed. */
  predicate OnlyServed(x: System, y: System, d: DispatchId) {
    && y.cancelled == x.cancelled && y.routes == x.routes && y.channels.Keys == x.channels.Keys
    && y.dispatches.Keys == x.dispatches.Keys
    && forall e :: e in x.dispatches && e != d ==> y.dispatches[e] == x.dispatches[e]
  }

  lemma ServingKeepsOthers(x: System, l: Label, d: DispatchId)
    requires Enabled(x, l) && Serves(l, d)
    ensures OnlyServed(x, Step(x, l), d)
  {
  }

  /** How far a dispatch is from its end: each target needs two steps, or three if its
      buffer has to be emptied before. */
  function Remaining(x: System, d: DispatchId): nat
    requires d in x.dispatches && |x.dispatches[d].outcomes| <= |x.dispatches[d].targets|
  {
    var p := x.dispatches[d];
    3 * (|p.targets| - |p.outcomes|) - if Active(p) && p.checked then 1 + HasRoom(x, Target(p)) else 0
  }

  function HasRoom(x: System, c: Chan): nat {
    if c in x.channels && (x.channels[c].buffer == [] || |x.channels[c].buffer| < x.channels[c].capacity) then 1 else 0
  }

  /** A step that is always possible while a dispatch is under way. */
  function NextStep(x: System, d: DispatchId): Label
    requires Addressed(x, d)
  {
    var c := Target(x.dispatches[d]);
    var k := x.channels[c];
    if !TargetMatches(x, d) then Pass(d)
    else if !x.dispatches[d].checked then Check(d)
    else if |k.buffer| < k.capacity then Send(d)
    else if k.buffer == [] then HandOver(d)
    else Receive(c)
  }

  lemma NextStepIsEnabled(x: System, d: DispatchId)
    requires d in x.dispatches && Active(x.dispatches[d]) && DispatchOk(x, d)
    ensures Addressed(x, d) && Enabled(x, NextStep(x, d)) && Serves(NextStep(x, d), d)
  {
    var p := x.dispatches[d];
    assert Target(p) in p.targets;
  }

  /** The dispatch has at most n steps to go. */
  predicate Within(x: System, d: DispatchId, n: nat) {
    && d in x.dispatches && |x.dispatches[d].outcomes| <= |x.dispatches[d].targets|
    && Remaining(x, d) <= n
  }

  lemma NextStepIsProgress(x: System, d: DispatchId, n: nat)
    requires Within(x, d, n) && Addressed(x, d) && Enabled(x, NextStep(x, d))
    requires var k := x.channels[Target(x.dispatches[d])]; |k.buffer| <= k.capacity
    ensures n > 0 && Within(Step(x, NextStep(x, d)), d, n - 1)
  {
    var l := NextStep(x, d);
    var p, q := x.dispatches[d], Step(x, l).dispatches[d];
    if (l.Check? && q.checked) || l.Receive? {
      assert q.outcomes == p.outcomes && q.targets == p.targets;
    } else {
      assert |q.outcomes| == |p.outcomes| + 1 && q.targets == p.targets;
    }
  }

  lemma OneStepLess(x: System, d: DispatchId, n: nat) returns (l: Label)
    requires Inv(x) && Within(x, d, n) && Active(x.dispatches[d])
    ensures Enabled(x, l) && Serves(l, d) && n > 0 && Within(Step(x, l), d, n - 1)
  {
    assert DispatchOk(x, d);
    NextStepIsEnabled(x, d);
    assert ChannelOk(x, Target(x.dispatches[d]));
    NextStepIsProgress(x, d, n);
    l := NextStep(x, d);
  }

  /** One step more in front of others. */
  lemma ServeFirst(x: System, l: Label, rest: seq<Label>, d: DispatchId)
    requires Enabled(x, l) && Serves(l, d) && CanRun(Step(x, l), rest) && AllServe(rest, d)
    requires OnlyServed(Step(x, l), Run(Step(x, l), rest), d)
    ensures CanRun(x, [l] + rest) && Run(x, [l] + rest) == Run(Step(x, l), rest)
    ensures AllServe([l] + rest, d) && OnlyServed(x, Run(x, [l] + rest), d)
  {
    RunCons(x, l, rest);
    ServingKeepsOthers(x, l, d);
  }

  lemma {:induction false} FinishWithin(x: System, d: DispatchId, n: nat) returns (ls: seq<Label>)
    requires Inv(x) && Within(x, d, n)
    ensures CanRun(x, ls) && AllServe(ls, d) && OnlyServed(x, Run(x, ls), d)
    ensures d in Run(x, ls).dispatches && !Active(Run(x, ls).dispatches[d])
    decreases n
  {
    if !Active(x.dispatches[d]) {
      ls := [];
    } else {
      var l := OneStepLess(x, d, n);
      StepKeepsInv(x, l);
      var rest := FinishWithin(Step(x, l), d, n - 1);
      ServeFirst(x, l, rest, d);
      ls := [l] + rest;
    }
  }

  /** From every reachable state a dispatch can finish, by its own steps and those of
      the receivers; nobody's context has to end for that. */
  lemma DispatchCanFinish(before: seq<Label>, d: DispatchId) returns (ls: seq<Label>)
    requires CanRun(INITIAL, before) && d in Run(INITIAL, before).dispatches
    ensures var x := Run(INITIAL, before);
      CanRun(x, ls) && AllServe(ls, d) && OnlyServed(x, Run(x, ls), d) && !Active(Run(x, ls).dispatches[d])
  {
    var x := Run(INITIAL, before);
    assert Inv(INITIAL);
    RunKeepsInv(INITIAL, before);
    assert DispatchOk(x, d);
    ls := FinishWithin(x, d, Remaining(x, d));
  }

  // ------------------------------------------------------- the lock gets free

  function Readers(x: System): set<DispatchId> {
    set d | d in x.dispatches && Active(x.dispatches[d])
  }

  lemma OneReaderLess(x: System, y: System, d: DispatchId)
    requires d in Readers(x) && OnlyServed(x, y, d) && !Active(y.dispatches[d])
    ensures Readers(y) == Readers(x) - {d}
  {
  }

  /** Those who wait for the write lock can get it. */
  lemma {:induction false} ReadersCanFinish(x: System) returns (ls: seq<Label>)
    requires Inv(x)
    ensures CanRun(x, ls) && NoReaders(Run(x, ls))
    ensures var y := Run(x, ls);
      y.cancelled == x.cancelled && y.routes == x.routes && y.channels.Keys == x.channels.Keys
    decreases |Readers(x)|
  {
    if Readers(x) == {} {
      forall d | d in x.dispatches
        ensures !Active(x.dispatches[d])
      {
        assert d !in Readers(x);
      }
      ls := [];
    } else {
      var d :| d in Readers(x);
      assert DispatchOk(x, d);
      var some := FinishWithin(x, d, Remaining(x, d));
      var y := Run(x, some);
      RunKeepsInv(x, some);
      OneReaderLess(x, y, d);
      var rest := ReadersCanFinish(y);
      RunAppend(x, some, rest);
      ls := some + rest;
    }
  }

  /** From every reachable state a channel whose context is done can be removed. */
  lemma CancelledCanBeRemoved(before: seq<Label>, c: Chan, unsubscribes: bool) returns (ls: seq<Label>)
    requires CanRun(INITIAL, before) && c in Run(INITIAL, before).channels
    requires Run(INITIAL, before).channels[c].ctx in Run(INITIAL, before).cancelled
    ensures var x := Run(INITIAL, before);
      CanRun(x, ls) && forall t :: !IsRouted(Run(x, ls), t, c)
  {
    var x := Run(INITIAL, before);
    assert Inv(INITIAL);
    RunKeepsInv(INITIAL, before);
    ls := ReadersCanFinish(x);
    RunKeepsInv(x, ls);
    var y := Run(x, ls);
    ContextIsFixed(x, ls, c);
    RemovalTakesOnlyItsChannel(y, c, unsubscribes);
    var remove := [Remove(c, unsubscribes)];
    assert remove[1..] == [] && remove[0] == Remove(c, unsubscribes);
    assert CanRun(Step(y, remove[0]), []) && Run(Step(y, remove[0]), []) == Step(y, remove[0]);
    RunCons(y, remove[0], []);
    assert remove == [remove[0]] + [];
    RunAppend(x, ls, remove);
    ls := ls + remove;
  }

  lemma {:induction false} ContextIsFixed(x: System, ls: seq<Label>, c: Chan)
    requires CanRun(x, ls) && c in x.channels
    ensures c in Run(x, ls).channels && Run(x, ls).channels[c].ctx == x.channels[c].ctx
    decreases |ls|
  {
    if ls != [] {
      ContextIsFixed(Step(x, ls[0]), ls[1..], c);
    }
  }
}
