/**
 What becomes of a proposal: what a nil result means, which end of an attempt returns,
 which is tried again, and that from every reachable state a proposal can be committed
 and return.
 */
module ProposalOutcomes {
  import opened LeaderForwarding
  import opened Services
  import opened Wrappers

  // ------------------------------------------------------------ every run

  /** A proposal that returns nil is in the committed log, and the state machine
      applied it without error. */
  lemma NilMeansCommitted(nodes: set<Node>, ls: seq<Label>, c: CallId)
    requires CanRun(Initial(nodes), ls)
    requires c in Run(Initial(nodes), ls).calls && Run(Initial(nodes), ls).calls[c].phase == Done(Nil)
    ensures var x := Run(Initial(nodes), ls);
            CommittedFor(x.committed, x.attempts, c, x.calls[c].command)
  {
    RunKeepsInv(Initial(nodes), ls);
  }

  /** Whatever a proposer acts on answers its current attempt, and comes from another
      node, which did not see ErrNotLeader when handling it. */
  lemma ActsOnOwnResponse(nodes: set<Node>, ls: seq<Label>, c: CallId, r: Response, expired: bool)
    requires CanRun(Initial(nodes), ls) && Enabled(Run(Initial(nodes), ls), Receive(c, r, expired))
    ensures var x := Run(Initial(nodes), ls);
            && r.cid in x.requests && x.requests[r.cid].attempt == x.calls[c].phase.attempt
            && Handling(r.cid, r.node) in x.received && Handling(r.cid, r.node) !in x.silent
            && r.node != x.calls[c].node
            && x.calls[c].phase.attempt < |x.attempts| && x.attempts[x.calls[c].phase.attempt].call == c
  {
    RunKeepsInv(Initial(nodes), ls);
    ResponseAnswersOwnAttempt(Run(Initial(nodes), ls), c, r, expired);
  }

  lemma {:induction false} SilenceLasts(x: System, ls: seq<Label>, h: Handling)
    requires CanRun(x, ls) && h in x.silent
    ensures h in Run(x, ls).silent
    decreases |ls|
  {
    if ls != [] {
      SilenceLasts(Step(x, ls[0]), ls[1..], h);
    }
  }

  /** A node that saw ErrNotLeader when handling a broadcast never responds to it. */
  lemma NotLeaderStaysSilent(nodes: set<Node>, ls: seq<Label>, later: seq<Label>, h: Handling, r: Response)
    requires CanRun(Initial(nodes), ls) && h in Run(Initial(nodes), ls).silent
    requires CanRun(Run(Initial(nodes), ls), later)
    requires r in Run(Run(Initial(nodes), ls), later).responses && r.cid == h.cid
    ensures r.node != h.node
  {
    var x := Run(Initial(nodes), ls);
    var y := Run(x, later);
    RunKeepsInv(Initial(nodes), ls);
    RunKeepsInv(x, later);
    SilenceLasts(x, later, h);
    assert ResponseRight(y.requests, y.received, y.processing, y.silent, y.committed, r);
  }

  // ------------------------------------------------------------ local attempts

  /** An attempt at the proposer's own node ends with what the state machine answered, is
      broadcast with the proposed command if the node is not the leader, and is tried
      again after any other error. */
  lemma LocalOutcome(nodes: set<Node>, ls: seq<Label>, c: CallId, future: Future, cid: Cid)
    requires CanRun(Initial(nodes), ls) && Enabled(Run(Initial(nodes), ls), FinishLocal(c, future, cid))
    ensures var x := Run(Initial(nodes), ls);
            var y := Step(x, FinishLocal(c, future, cid));
            var a := x.calls[c].phase.attempt;
            && c in y.calls && y.calls[c].node == x.calls[c].node && y.calls[c].command == x.calls[c].command
            && match future
               case Applied(response) => y.calls[c].phase == Done(response)
               case Failed(e) =>
                 if e == Sentinel("node is not the leader") then
                   && y.calls[c].phase == Forwarding(a, cid)
                   && cid in y.requests && y.requests[cid] == Request(a, x.calls[c].node, x.calls[c].command)
                 else y.calls[c].phase == Idle && y.requests == x.requests
  {
  }

  /** An attempt that gets no response is tried again if its error is retryable, or if its
      time is up and that is the error; any other error is returned. */
  lemma FailedForwardingOutcome(nodes: set<Node>, ls: seq<Label>, c: CallId, err: Error, expired: bool)
    requires CanRun(Initial(nodes), ls) && Enabled(Run(Initial(nodes), ls), FailForwarding(c, err, expired))
    ensures var y := Step(Run(Initial(nodes), ls), FailForwarding(c, err, expired));
            && c in y.calls
            && y.calls[c].phase == if err.Retryable? || (expired && err == DEADLINE) then Idle else Done(err)
  {
  }

  /** A proposer that waits to try again and whose context ends returns the context's error. */
  lemma CancelledOutcome(nodes: set<Node>, ls: seq<Label>, c: CallId, err: Error)
    requires CanRun(Initial(nodes), ls) && Enabled(Run(Initial(nodes), ls), Cancel(c, err))
    ensures var y := Step(Run(Initial(nodes), ls), Cancel(c, err));
            c in y.calls && y.calls[c].phase == Done(err)
  {
  }

  // -------------------------------------------------------- forwarded attempts

  /** What the proposer makes of a response, read by its fields: an empty error stands for
      the state machine's answer, which it returns. */
  lemma ReceivedOutcome(nodes: set<Node>, ls: seq<Label>, c: CallId, r: Response, expired: bool)
    requires CanRun(Initial(nodes), ls) && Enabled(Run(Initial(nodes), ls), Receive(c, r, expired))
    ensures var y := Step(Run(Initial(nodes), ls), Receive(c, r, expired));
            var err := if r.wire.error == "" then r.wire.response
                       else if r.wire.retryable then Retryable(Text(r.wire.error))
                       else Text(r.wire.error);
            && c in y.calls
            && y.calls[c].phase == if err.Retryable? || (expired && err == DEADLINE) then Idle else Done(err)
  {
  }

  predicate From(r: Response, h: Handling) {
    r.cid == h.cid && r.node == h.node
  }

  /** The node is through with the broadcast and has not responded. */
  predicate Mute(x: System, h: Handling) {
    && h in x.received && h !in x.processing
    && forall r :: r in x.responses ==> !From(r, h)
  }

  /** The node is through with the broadcast and has responded this and nothing else. */
  predicate Responded(x: System, h: Handling, r: Response) {
    && h in x.received && h !in x.processing && r in x.responses && From(r, h)
    && forall s :: s in x.responses && From(s, h) ==> s == r
  }

  lemma StepKeepsResponses(x: System, l: Label, h: Handling)
    requires Enabled(x, l) && h in x.received && h !in x.processing
    ensures var y := Step(x, l);
            && h in y.received && h !in y.processing && x.responses <= y.responses
            && forall r :: r in y.responses && From(r, h) ==> r in x.responses
  {
  }

  lemma {:induction false} RunKeepsResponses(x: System, ls: seq<Label>, h: Handling)
    requires CanRun(x, ls) && h in x.received && h !in x.processing
    ensures var y := Run(x, ls);
            && h in y.received && h !in y.processing && x.responses <= y.responses
            && forall r :: r in y.responses && From(r, h) ==> r in x.responses
    decreases |ls|
  {
    if ls != [] {
      StepKeepsResponses(x, ls[0], h);
      RunKeepsResponses(Step(x, ls[0]), ls[1..], h);
    }
  }

  /** What a node responds at the end of a handling, if anything. */
  lemma HandlingResponds(x: System, h: Handling, future: Future, barrier: Error)
    requires Inv(x) && Enabled(x, Finish(h, future, barrier))
    ensures var y, sent := Step(x, Finish(h, future, barrier)), SendLfwResponse(ProcessApply(future, barrier));
            if sent.Some? then Responded(y, h, Response(h.cid, h.node, sent.value)) else Mute(y, h)
  {
    forall r | r in x.responses
      ensures !From(r, h)
    {
      assert ResponseRight(x.requests, x.received, x.processing, x.silent, x.committed, r);
    }
  }

  /** The phase in which a response leaves a call. */
  lemma ResponseDecides(x: System, c: CallId, r: Response, expired: bool, future: Future, barrier: Error)
    requires Enabled(x, Receive(c, r, expired)) && SendLfwResponse(ProcessApply(future, barrier)) == Some(r.wire)
    requires future.Failed? ==> future.error != Nil && !future.error.Retryable?
    requires future.Applied? ==> !future.response.Retryable?
    requires !barrier.Retryable?
    ensures var phase := Step(x, Receive(c, r, expired)).calls[c].phase;
            var failure := if future.Failed? then future.error else if future.response == Nil then barrier else Nil;
            && (future == Applied(Nil) && barrier == Nil ==> phase == Done(Nil))
            && (future.Applied? && future.response != Nil ==>
                  phase == if expired && future.response == DEADLINE then Idle else Done(future.response))
            && (failure != Nil ==>
                  && failure in {TRANSFER_IN_PROGRESS, LEADERSHIP_LOST, IS_LEADER, ABORTED_BY_RESTORE}
                  && phase == Idle)
  {
    ResponseMeaning(future, barrier);
    var err := ReceiveRpc(r.wire);
    assert Step(x, Receive(c, r, expired)).calls[c].phase == After(Iteration(err, if expired then DEADLINE else Nil));
  }

  /** The proposer acts on the response of a node that has handled its broadcast. What it
      then does is decided by how Apply and Barrier ended there: success, or an answer of
      the state machine, is returned; an error of the leader is tried again; and on any
      other error there is no response to act on. */
  lemma ForwardedOutcome(nodes: set<Node>, a: seq<Label>, h: Handling, future: Future, barrier: Error, b: seq<Label>,
                         c: CallId, r: Response, expired: bool)
    requires CanRun(Initial(nodes), a) && Enabled(Run(Initial(nodes), a), Finish(h, future, barrier))
    requires var y := Step(Run(Initial(nodes), a), Finish(h, future, barrier));
             CanRun(y, b) && Enabled(Run(y, b), Receive(c, r, expired)) && r.cid == h.cid && r.node == h.node
    ensures var y := Step(Run(Initial(nodes), a), Finish(h, future, barrier));
            var z := Step(Run(y, b), Receive(c, r, expired));
            var failure := if future.Failed? then future.error else if future.response == Nil then barrier else Nil;
            && c in z.calls
            && (future == Applied(Nil) && barrier == Nil ==> z.calls[c].phase == Done(Nil))
            && (future.Applied? && future.response != Nil ==>
                  z.calls[c].phase == if expired && future.response == DEADLINE then Idle else Done(future.response))
            && (failure != Nil ==>
                  && failure in {TRANSFER_IN_PROGRESS, LEADERSHIP_LOST, IS_LEADER, ABORTED_BY_RESTORE}
                  && z.calls[c].phase == Idle)
  {
    var x := Run(Initial(nodes), a);
    var y := Step(x, Finish(h, future, barrier));
    RunKeepsInv(Initial(nodes), a);
    HandlingResponds(x, h, future, barrier);
    RunKeepsResponses(y, b, h);
    ResponseDecides(Run(y, b), c, r, expired, future, barrier);
  }

  lemma UndecodableResponds(x: System, h: Handling, text: string)
    requires Inv(x) && Enabled(x, HandleUndecodable(h, text))
    ensures Responded(Step(x, HandleUndecodable(h, text)), h, Response(h.cid, h.node, Wire(Nil, text, false)))
  {
    forall s | s in x.responses
      ensures !From(s, h)
    {
      assert ResponseRight(x.requests, x.received, x.processing, x.silent, x.committed, s);
    }
  }

  /** A broadcast that a node cannot decode makes the proposal fail with that error. */
  lemma UndecodableOutcome(nodes: set<Node>, a: seq<Label>, h: Handling, text: string, b: seq<Label>,
                           c: CallId, r: Response, expired: bool)
    requires CanRun(Initial(nodes), a) && Enabled(Run(Initial(nodes), a), HandleUndecodable(h, text))
    requires var y := Step(Run(Initial(nodes), a), HandleUndecodable(h, text));
             CanRun(y, b) && Enabled(Run(y, b), Receive(c, r, expired)) && r.cid == h.cid && r.node == h.node
    ensures var y := Step(Run(Initial(nodes), a), HandleUndecodable(h, text));
            var z := Step(Run(y, b), Receive(c, r, expired));
            c in z.calls && z.calls[c].phase == Done(Text(text))
  {
    var x := Run(Initial(nodes), a);
    RunKeepsInv(Initial(nodes), a);
    UndecodableResponds(x, h, text);
    RunKeepsResponses(Step(x, HandleUndecodable(h, text)), b, h);
  }

  /** A node that sees that it is not the leader, from Apply, from Barrier or because it
      is closed, never responds to that broadcast. */
  lemma NonLeaderNeverResponds(nodes: set<Node>, a: seq<Label>, l: Label, b: seq<Label>, r: Response)
    requires CanRun(Initial(nodes), a) && Enabled(Run(Initial(nodes), a), l)
    requires || l.HandleClosed?
             || (l.Finish? && l.future == Failed(NOT_LEADER))
             || (l.Finish? && l.future == Applied(Nil) && l.barrier == NOT_LEADER)
    requires CanRun(Step(Run(Initial(nodes), a), l), b) && r in Run(Step(Run(Initial(nodes), a), l), b).responses
    ensures r.cid != l.h.cid || r.node != l.h.node
  {
    var x := Run(Initial(nodes), a);
    RunKeepsInv(Initial(nodes), a);
    if l.Finish? {
      HandlingResponds(x, l.h, l.future, l.barrier);
      ResponseMeaning(l.future, l.barrier);
    } else {
      ClosedIsMute(x, l.h);
    }
    RunKeepsResponses(Step(x, l), b, l.h);
  }

  lemma ClosedIsMute(x: System, h: Handling)
    requires Inv(x) && MayHandle(x, h)
    ensures Mute(Step(x, HandleClosed(h)), h)
  {
    ClosedIsSilent();
    forall s | s in x.responses
      ensures !From(s, h)
    {
      assert ResponseRight(x.requests, x.received, x.processing, x.silent, x.committed, s);
    }
  }

  // --------------------------------------------------------- settled for good

  /** The ticket is of an attempt, and Raft can no longer commit it. */
  predicate Gone(x: System, t: Ticket) {
    && Known(x.attempts, x.requests, x.received, t)
    && t !in x.pending && !IsCommitted(x.committed, t)
  }

  lemma StepKeepsKnown(x: System, l: Label, t: Ticket)
    requires Enabled(x, l) && Known(x.attempts, x.requests, x.received, t)
    ensures Known(Step(x, l).attempts, Step(x, l).requests, Step(x, l).received, t)
  {
    var y := Step(x, l);
    KnownStays(x.attempts, x.requests, x.received, y.attempts, y.requests, y.received, {t});
    assert t in {t};
  }

  /** What Raft is handed is new. */
  lemma StepKeepsOut(x: System, l: Label, t: Ticket)
    requires Inv(x) && Enabled(x, l) && Gone(x, t)
    ensures t !in Step(x, l).pending && !IsCommitted(Step(x, l).committed, t)
  {
    var y := Step(x, l);
    match l
    case Handle(h) =>
      RemoteTicketIsNew(x, h);
      assert t != TicketOf(x, h);
    case Try(c) => assert t != Ticket(|x.attempts|, x.calls[c].node);
    case Commit(u, response) => assert u != t;
    case _ => assert y.pending.Keys <= x.pending.Keys && y.committed == x.committed;
  }

  lemma StepKeepsGone(x: System, l: Label, t: Ticket)
    requires Inv(x) && Enabled(x, l) && Gone(x, t)
    ensures Gone(Step(x, l), t)
  {
    StepKeepsKnown(x, l, t);
    StepKeepsOut(x, l, t);
  }

  lemma {:induction false} RunKeepsGone(x: System, ls: seq<Label>, t: Ticket)
    requires Inv(x) && CanRun(x, ls) && Gone(x, t)
    ensures Gone(Run(x, ls), t)
    decreases |ls|
  {
    if ls != [] {
      StepKeepsInv(x, ls[0]);
      StepKeepsGone(x, ls[0], t);
      RunKeepsGone(Step(x, ls[0]), ls[1..], t);
    }
  }

  /** Raft drops the ticket, or refuses it with ErrNotLeader. */
  predicate Settles(x: System, l: Label, t: Ticket)
    requires Enabled(x, l)
  {
    || l == Drop(t)
    || (l.FinishLocal? && l.future == Failed(NOT_LEADER)
        && t == Ticket(x.calls[l.c].phase.attempt, x.calls[l.c].node))
    || (l.Finish? && l.future == Failed(NOT_LEADER) && t == Ticket(x.requests[l.h.cid].attempt, l.h.node))
  }

  lemma SettledIsGone(x: System, l: Label, t: Ticket)
    requires Inv(x) && Enabled(x, l) && Settles(x, l, t)
    ensures Gone(Step(x, l), t)
  {
    match l
    case Drop(_) =>
      assert Known(x.attempts, x.requests, x.received, t);
    case FinishLocal(c, future, cid) =>
      assert PhaseRight(c, x.calls[c], x.attempts, x.requests, x.refused);
    case Finish(h, future, barrier) =>
      assert h in x.received && h.cid in x.requests;
    StepKeepsKnown(x, l, t);
  }

  /** What Raft dropped, or refused with ErrNotLeader, is never committed. */
  lemma SettledStaysOut(nodes: set<Node>, a: seq<Label>, l: Label, b: seq<Label>, t: Ticket)
    requires CanRun(Initial(nodes), a) && Enabled(Run(Initial(nodes), a), l)
    requires Settles(Run(Initial(nodes), a), l, t)
    requires CanRun(Step(Run(Initial(nodes), a), l), b)
    ensures !IsCommitted(Run(Step(Run(Initial(nodes), a), l), b).committed, t)
  {
    var x := Run(Initial(nodes), a);
    RunKeepsInv(Initial(nodes), a);
    StepKeepsInv(x, l);
    SettledIsGone(x, l, t);
    RunKeepsGone(Step(x, l), b, t);
  }

  // --------------------------------------------------- proposals that succeed

  /** Proposed and tried once: Raft may commit the command under a new ticket. */
  lemma ProposeAndTryFrom(x: System, c: CallId, node: Node, command: Command) returns (ls: seq<Label>)
    requires Inv(x) && c !in x.calls && node in x.nodes
    ensures CanRun(x, ls)
    ensures var t := Ticket(|x.attempts|, node);
            && t !in x.handed && !IsCommitted(x.committed, t)
            && Run(x, ls) == x.(calls := x.calls[c := Call(node, command, Local(t.attempt))],
                                attempts := x.attempts + [Proposal(c, node, command)],
                                handed := x.handed + {t}, pending := x.pending[t := command])
  {
    assert CanRun(x, []) && Run(x, []) == x;
    RunSnoc(x, [], Propose(c, node, command));
    ls := [] + [Propose(c, node, command)];
    var y := Run(x, ls);
    assert y == x.(calls := x.calls[c := Call(node, command, Idle)]);
    RunSnoc(x, ls, Try(c));
    ls := ls + [Try(c)];
    assert y.calls[c := Call(node, command, Local(|x.attempts|))]
        == x.calls[c := Call(node, command, Local(|x.attempts|))];
  }

  /** From every reachable state: a new proposal at the leader is committed once and gets
      the state machine's answer. */
  lemma LocalProposalReturns(nodes: set<Node>, ls: seq<Label>, c: CallId, node: Node, command: Command,
                             response: Error, cid: Cid)
    returns (more: seq<Label>)
    requires CanRun(Initial(nodes), ls) && c !in Run(Initial(nodes), ls).calls && node in Run(Initial(nodes), ls).nodes
    requires !response.Retryable? && cid != "" && cid !in Run(Initial(nodes), ls).requests
    ensures var x := Run(Initial(nodes), ls);
            && CanRun(x, more) && c in Run(x, more).calls
            && Run(x, more).calls[c] == Call(node, command, Done(response))
            && Run(x, more).committed == x.committed + [Entry(Ticket(|x.attempts|, node), command, response)]
  {
    var x := Run(Initial(nodes), ls);
    RunKeepsInv(Initial(nodes), ls);
    more := ProposeAndTryFrom(x, c, node, command);
    var t := Ticket(|x.attempts|, node);
    RunSnoc(x, more, Commit(t, response));
    more := more + [Commit(t, response)];
    var y := Run(x, more);
    assert y.committed[|x.committed|] == Entry(t, command, response);
    RunSnoc(x, more, FinishLocal(c, Applied(response), cid));
    more := more + [FinishLocal(c, Applied(response), cid)];
  }

  /** A new proposal at another node is broadcast under a new id. */
  lemma BroadcastFrom(x: System, c: CallId, node: Node, command: Command, cid: Cid) returns (ls: seq<Label>)
    requires Inv(x) && c !in x.calls && node in x.nodes && cid != "" && cid !in x.requests
    ensures CanRun(x, ls)
    ensures var y, a := Run(x, ls), |x.attempts|;
            && y.nodes == x.nodes && y.committed == x.committed
            && y.calls == x.calls[c := Call(node, command, Forwarding(a, cid))]
            && y.attempts == x.attempts + [Proposal(c, node, command)]
            && y.requests == x.requests[cid := Request(a, node, command)]
            && y.received == x.received && y.processing == x.processing
  {
    ls := ProposeAndTryFrom(x, c, node, command);
    var y := Run(x, ls);
    RunSnoc(x, ls, FinishLocal(c, Failed(NOT_LEADER), cid));
    ls := ls + [FinishLocal(c, Failed(NOT_LEADER), cid)];
  }

  /** A node that is the leader hands a broadcast to Raft, which commits it. */
  lemma LeaderCommits(x: System, h: Handling, response: Error) returns (ls: seq<Label>)
    requires Inv(x) && MayHandle(x, h) && !response.Retryable?
    ensures CanRun(x, ls)
    ensures var y, q := Run(x, ls), x.requests[h.cid];
            && y.calls == x.calls && y.requests == x.requests && h in y.processing
            && y.committed == x.committed + [Entry(Ticket(q.attempt, h.node), q.command, response)]
  {
    var t := TicketOf(x, h);
    assert CanRun(x, []) && Run(x, []) == x;
    RunSnoc(x, [], Handle(h));
    ls := [] + [Handle(h)];
    assert Run(x, ls).pending[t] == x.requests[h.cid].command;
    RunSnoc(x, ls, Commit(t, response));
    ls := ls + [Commit(t, response)];
  }

  /** Its Apply and Barrier succeed: it responds. */
  lemma LeaderHandles(x: System, h: Handling, response: Error) returns (ls: seq<Label>)
    requires Inv(x) && MayHandle(x, h) && !response.Retryable?
    ensures CanRun(x, ls)
    ensures var y, q := Run(x, ls), x.requests[h.cid];
            && y.calls == x.calls && y.requests == x.requests
            && y.committed == x.committed + [Entry(Ticket(q.attempt, h.node), q.command, response)]
            && Response(h.cid, h.node, Wire(response, "", false)) in y.responses
  {
    ls := LeaderCommits(x, h, response);
    var y := Run(x, ls);
    assert y.committed[|x.committed|] == Entry(TicketOf(x, h), x.requests[h.cid].command, response);
    RunSnoc(x, ls, Finish(h, Applied(response), Nil));
    ls := ls + [Finish(h, Applied(response), Nil)];
  }

  /** From every reachable state: a new proposal at a node that is not the leader is
      committed once, at the leader, and gets the state machine's answer. */
  lemma ForwardedProposalReturns(nodes: set<Node>, ls: seq<Label>, c: CallId, node: Node, command: Command,
                                 leader: Node, response: Error, cid: Cid)
    returns (more: seq<Label>)
    requires CanRun(Initial(nodes), ls) && c !in Run(Initial(nodes), ls).calls
    requires {node, leader} <= Run(Initial(nodes), ls).nodes && leader != node
    requires !response.Retryable? && cid != "" && cid !in Run(Initial(nodes), ls).requests
    ensures var x := Run(Initial(nodes), ls);
            && CanRun(x, more) && c in Run(x, more).calls
            && Run(x, more).calls[c] == Call(node, command, Done(response))
            && Run(x, more).committed == x.committed + [Entry(Ticket(|x.attempts|, leader), command, response)]
  {
    var x, h := Run(Initial(nodes), ls), Handling(cid, leader);
    RunKeepsInv(Initial(nodes), ls);
    var broadcast := BroadcastFrom(x, c, node, command, cid);
    var y := Run(x, broadcast);
    RunKeepsInv(x, broadcast);
    var handled := LeaderHandles(y, h, response);
    RunConcat(x, broadcast, handled);
    more := broadcast + handled;
    var r := Response(cid, leader, Wire(response, "", false));
    RunSnoc(x, more, Receive(c, r, false));
    more := more + [Receive(c, r, false)];
  }
}
