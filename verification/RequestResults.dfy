/**
 A request and its results over whole runs: registering makes the results channel
 receptive until its call ends, and every request can be answered.
 */
module RequestResults {
  import opened Correlation
  import opened Topics

  // ----------------------------------------------------- while the call lasts

  /** The call is as published, registered, and its context not done. */
  predicate Listening(x: System, publish: Label, topic: string)
    requires publish.Publish?
  {
    && publish.p in x.calls && publish.p !in x.cancelled
    && x.calls[publish.p] == Call(publish.agent, publish.scope, publish.pattern, publish.typeName, topic,
                                  publish.correlationId, Registered)
  }

  /** The call is out, and its results channel is to be registered next. */
  predicate Waiting(x: System, publish: Label, topic: string)
    requires publish.Publish?
  {
    && publish.p in x.calls && publish.p !in x.cancelled
    && x.calls[publish.p] == Call(publish.agent, publish.scope, publish.pattern, publish.typeName, topic,
                                  publish.correlationId, Publishing)
  }

  /** The steps that end a call. */
  predicate Ends(l: Label, p: CallId) {
    l in {Cancel(p), Remove(p), Fail(p)}
  }

  predicate NoneEnds(ls: seq<Label>, p: CallId) {
    forall i :: 0 <= i < |ls| ==> !Ends(ls[i], p)
  }

  predicate NoneRegisters(ls: seq<Label>, p: CallId) {
    forall i :: 0 <= i < |ls| ==> ls[i] != Register(p)
  }

  lemma StepKeepsListening(x: System, l: Label, publish: Label, topic: string)
    requires Enabled(x, l) && publish.Publish? && !Ends(l, publish.p)
    ensures Listening(x, publish, topic) ==> Listening(Step(x, l), publish, topic)
    ensures Waiting(x, publish, topic) && l != Register(publish.p) ==> Waiting(Step(x, l), publish, topic)
  {
  }

  lemma {:induction false} RunKeepsListening(x: System, ls: seq<Label>, publish: Label, topic: string)
    requires CanRun(x, ls) && publish.Publish? && NoneEnds(ls, publish.p)
    ensures Listening(x, publish, topic) ==> Listening(Run(x, ls), publish, topic)
    ensures Waiting(x, publish, topic) && NoneRegisters(ls, publish.p) ==> Waiting(Run(x, ls), publish, topic)
    decreases |ls|
  {
    if ls != [] {
      assert NoneEnds(ls[1..], publish.p);
      assert NoneRegisters(ls, publish.p) ==> NoneRegisters(ls[1..], publish.p);
      StepKeepsListening(x, ls[0], publish, topic);
      RunKeepsListening(Step(x, ls[0]), ls[1..], publish, topic);
    }
  }

  lemma {:induction false} PublishedStays(x: System, ls: seq<Label>)
    requires CanRun(x, ls)
    ensures x.published <= Run(x, ls).published && x.callbacks <= Run(x, ls).callbacks
    ensures x.identities == Run(x, ls).identities
    decreases |ls|
  {
    if ls != [] {
      PublishedStays(Step(x, ls[0]), ls[1..]);
    }
  }

  lemma RegisteringListens(x: System, publish: Label, topic: string)
    requires publish.Publish? && Waiting(x, publish, topic)
    ensures Enabled(x, Register(publish.p)) && Listening(Step(x, Register(publish.p)), publish, topic)
  {
  }

  /** Let a run publish a request, later register its results channel, and go on; nothing
      has ended the call. Then the request is out, under the topic that the channel is
      registered for, and every result of it that the agent dispatches is delivered to
      the channel once, and to no other. */
  lemma RegisteredCallGetsItsResults(identities: map<Agent, Identity>, a: seq<Label>, publish: Label, b: seq<Label>,
                                     c: seq<Label>, m: Message)
    requires forall i :: i in identities ==> ValidName(identities[i].cluster)
    requires publish.Publish? && CanRun(Initial(identities), a) && Enabled(Run(Initial(identities), a), publish)
    requires publish.p !in Run(Initial(identities), a).cancelled
    requires var x := Step(Run(Initial(identities), a), publish);
             && CanRun(x, b) && NoneEnds(b, publish.p) && NoneRegisters(b, publish.p)
             && Enabled(Run(x, b), Register(publish.p))
    requires var y := Step(Run(Step(Run(Initial(identities), a), publish), b), Register(publish.p));
             CanRun(y, c) && NoneEnds(c, publish.p)
    ensures var y := Step(Run(Step(Run(Initial(identities), a), publish), b), Register(publish.p));
            var z, p := Run(y, c), publish.p;
            && p in z.calls && z.calls[p].phase == Registered && z.calls[p].agent == publish.agent
            && z.calls[p].correlationId == publish.correlationId
            && Request(z.calls[p].topic, publish.correlationId, p) in z.published
            && (Enabled(z, HandleResult(publish.agent, m)) && m.origin == p ==>
                  Step(z, HandleResult(publish.agent, m)).delivered == z.delivered + [Delivery(p, p)])
  {
    var before := Run(Initial(identities), a);
    var x := Step(before, publish);
    var topic := x.calls[publish.p].topic;
    assert Waiting(x, publish, topic);
    RunKeepsListening(x, b, publish, topic);
    RegisteringListens(Run(x, b), publish, topic);
    var y := Step(Run(x, b), Register(publish.p));
    RunKeepsListening(y, c, publish, topic);
    PublishedStays(x, b);
    PublishedStays(y, c);
    assert Request(topic, publish.correlationId, publish.p) in x.published;
    var z := Run(y, c);
    RunIsSound(identities, a, publish, b, c);
    if Enabled(z, HandleResult(publish.agent, m)) && m.origin == publish.p {
      ResultReachesItsCall(z, publish.agent, m);
    }
  }

  lemma RunIsSound(identities: map<Agent, Identity>, a: seq<Label>, publish: Label, b: seq<Label>, c: seq<Label>)
    requires forall i :: i in identities ==> ValidName(identities[i].cluster)
    requires publish.Publish? && CanRun(Initial(identities), a) && Enabled(Run(Initial(identities), a), publish)
    requires CanRun(Step(Run(Initial(identities), a), publish), b)
    requires Enabled(Run(Step(Run(Initial(identities), a), publish), b), Register(publish.p))
    requires var y := Step(Run(Step(Run(Initial(identities), a), publish), b), Register(publish.p));
             CanRun(y, c)
    ensures var y := Step(Run(Step(Run(Initial(identities), a), publish), b), Register(publish.p));
            Inv(Run(y, c))
  {
    RunKeepsInv(Initial(identities), a);
    var x := Step(Run(Initial(identities), a), publish);
    StepKeepsInv(Run(Initial(identities), a), publish);
    RunKeepsInv(x, b);
    StepKeepsInv(Run(x, b), Register(publish.p));
    RunKeepsInv(Step(Run(x, b), Register(publish.p)), c);
  }

  // -------------------------------------------------- after the call has ended

  predicate Deaf(x: System, p: CallId) {
    p in x.cancelled || (p in x.calls && x.calls[p].phase.Ended?)
  }

  /** Nothing more was delivered to the call. */
  predicate NothingFor(before: seq<Delivery>, after: seq<Delivery>, p: CallId) {
    before <= after && forall i :: |before| <= i < |after| ==> after[i].channel != p
  }

  lemma DeafStep(x: System, l: Label, p: CallId)
    requires Inv(x) && Enabled(x, l) && Deaf(x, p)
    ensures Deaf(Step(x, l), p) && NothingFor(x.delivered, Step(x, l).delivered, p)
  {
    if l.HandleResult? {
      ResultReachesItsCall(x, l.agent, l.m);
    }
  }

  lemma {:induction false} DeafGetsNothing(x: System, ls: seq<Label>, p: CallId)
    requires Inv(x) && CanRun(x, ls) && Deaf(x, p)
    ensures NothingFor(x.delivered, Run(x, ls).delivered, p)
    decreases |ls|
  {
    if ls != [] {
      DeafStep(x, ls[0], p);
      StepKeepsInv(x, ls[0]);
      DeafGetsNothing(Step(x, ls[0]), ls[1..], p);
    }
  }

  /** After a call was cancelled, removed or could not be published, nothing is delivered
      to its results channel. */
  lemma EndedCallGetsNothing(identities: map<Agent, Identity>, a: seq<Label>, l: Label, p: CallId, b: seq<Label>)
    requires forall i :: i in identities ==> ValidName(identities[i].cluster)
    requires CanRun(Initial(identities), a) && Enabled(Run(Initial(identities), a), l)
    requires l == Cancel(p) || l == Remove(p) || l == Fail(p)
    requires CanRun(Step(Run(Initial(identities), a), l), b)
    ensures var x := Run(Initial(identities), a);
            NothingFor(x.delivered, Run(Step(x, l), b).delivered, p)
  {
    RunKeepsInv(Initial(identities), a);
    StepKeepsInv(Run(Initial(identities), a), l);
    assert Step(Run(Initial(identities), a), l).delivered == Run(Initial(identities), a).delivered;
    DeafGetsNothing(Step(Run(Initial(identities), a), l), b, p);
  }

  // ------------------------------------------------- every request can be answered

  lemma RunCons(x: System, l: Label, rest: seq<Label>)
    requires Enabled(x, l) && CanRun(Step(x, l), rest)
    ensures CanRun(x, [l] + rest) && Run(x, [l] + rest) == Run(Step(x, l), rest)
  {
    assert ([l] + rest)[1..] == rest;
  }

  /** The agent's result router is free once the call is registered, so its results can be
      dispatched. */
  lemma ResultIsDispatched(x: System, publish: Label, topic: string)
    requires Inv(x) && publish.Publish? && Listening(x, publish, topic)
    requires publish.pattern in {Action, Query}
    requires !Locked(x, RouterKey(publish.agent, if publish.pattern == Action then ActionResult else QueryResult))
    requires Result(topic, publish.correlationId, publish.p) in x.published
    ensures var l := HandleResult(publish.agent, Result(topic, publish.correlationId, publish.p));
            Enabled(x, l) && Step(x, l).delivered == x.delivered + [Delivery(publish.p, publish.p)]
  {
    var c := x.calls[publish.p];
    var m := Result(topic, publish.correlationId, publish.p);
    assert TopicPrinted(x.identities, c);
    var identity := x.identities[c.agent];
    PrintedTopicIsRead(identity.cluster, c.scope, ResultLevel(c.pattern), c.typeName, identity.id);
    assert HoldsRegistered(x.calls, x.routers, RouterKey(publish.agent, ResultLevel(c.pattern)), topic);
    ResultReachesItsCall(x, publish.agent, m);
  }

  /** A request that is out, its results channel being registered, can be handled and
      answered. */
  lemma AnswerReaches(x: System, publish: Label, topic: string) returns (ls: seq<Label>)
    requires Inv(x) && publish.Publish? && Listening(x, publish, topic)
    requires publish.pattern in {Action, Query}
    requires !Locked(x, RouterKey(publish.agent, if publish.pattern == Action then ActionResult else QueryResult))
    requires Request(topic, publish.correlationId, publish.p) in x.published
    ensures var p, cid := publish.p, publish.correlationId;
            ls == [HandleRequest(Request(topic, cid, p)), Respond(Callback(topic, cid, p)),
                   HandleResult(publish.agent, Result(topic, cid, p))]
    ensures CanRun(x, ls) && Run(x, ls).delivered == x.delivered + [Delivery(publish.p, publish.p)]
  {
    var p, cid := publish.p, publish.correlationId;
    var handle, respond := HandleRequest(Request(topic, cid, p)), Respond(Callback(topic, cid, p));
    var dispatch := HandleResult(publish.agent, Result(topic, cid, p));
    var y := Step(x, handle);
    StepKeepsInv(x, handle);
    StepKeepsInv(y, respond);
    var z := Step(y, respond);
    assert z.calls == x.calls && z.cancelled == x.cancelled;
    ResultIsDispatched(z, publish, topic);
    assert CanRun(Step(z, dispatch), []) && Run(Step(z, dispatch), []) == Step(z, dispatch);
    RunCons(z, dispatch, []);
    RunCons(y, respond, [dispatch] + []);
    RunCons(x, handle, [respond] + ([dispatch] + []));
    ls := [handle] + ([respond] + ([dispatch] + []));
  }

  /** From every reachable state: a request that can be published can be handled and
      answered under its topic and correlation id, and the answer is delivered once. */
  lemma RequestCanBeAnswered(identities: map<Agent, Identity>, a: seq<Label>, publish: Label)
    returns (topic: string, ls: seq<Label>)
    requires forall i :: i in identities ==> ValidName(identities[i].cluster)
    requires publish.Publish? && CanRun(Initial(identities), a) && Enabled(Run(Initial(identities), a), publish)
    requires publish.p !in Run(Initial(identities), a).cancelled
    ensures publish.agent in identities
    ensures topic == ResponseTopic(identities[publish.agent].cluster, publish.scope,
                                   if publish.pattern == Action then ActionResult else QueryResult,
                                   publish.typeName, identities[publish.agent].id)
    ensures var p, cid := publish.p, publish.correlationId;
            ls == [publish, Register(p), HandleRequest(Request(topic, cid, p)), Respond(Callback(topic, cid, p)),
                   HandleResult(publish.agent, Result(topic, cid, p))]
    ensures var x := Run(Initial(identities), a);
            CanRun(x, ls) && Run(x, ls).delivered == x.delivered + [Delivery(publish.p, publish.p)]
  {
    var x, p := Run(Initial(identities), a), publish.p;
    RunKeepsInv(Initial(identities), a);
    StepKeepsInv(x, publish);
    var y := Step(x, publish);
    topic := y.calls[p].topic;
    PublishedStays(Initial(identities), a);
    assert Waiting(y, publish, topic);
    RegisteringListens(y, publish, topic);
    StepKeepsInv(y, Register(p));
    RegisteringUnlocks(x, publish);
    var rest := AnswerReaches(Step(y, Register(p)), publish, topic);
    RunCons(y, Register(p), rest);
    RunCons(x, publish, [Register(p)] + rest);
    ls := [publish] + ([Register(p)] + rest);
  }

  /** Publishing takes the router's lock and registering gives it back. */
  lemma RegisteringUnlocks(x: System, publish: Label)
    requires publish.Publish? && Enabled(x, publish)
    ensures var key := RouterKey(publish.agent, if publish.pattern == Action then ActionResult else QueryResult);
            !Locked(Step(Step(x, publish), Register(publish.p)), key)
  {
  }
}
