/**
 Proposing an input: a node applies it to its own Raft node and, if that is not the
 leader, broadcasts it. Every other node applies it to its Raft node, those that are
 not the leader stay silent, and the proposer acts on the first response or retries.

 Raft is an oracle. An Apply call hands over a ticket; the oracle commits or drops it
 at any time, and answers the call under three rules: success means the ticket is
 committed, ErrNotLeader means it is not and never will be, and any other error means
 nothing. A node handles each broadcast at most once, and correlation ids are fresh.
 */
module LeaderForwarding {
  import opened Services
  import opened Wrappers
  import R = Routing

  type Node = nat
  type CallId = nat
  type Attempt = nat
  type Cid = string
  type Command = string

  const NOT_LEADER := Sentinel("node is not the leader")
  const TRANSFER_IN_PROGRESS := Sentinel("leadership transfer in progress")
  const LEADERSHIP_LOST := Sentinel("leadership lost while committing log")
  const IS_LEADER := Sentinel("node is the leader")
  const ABORTED_BY_RESTORE := Sentinel("snapshot restored while committing log")
  const DEADLINE := Sentinel("context deadline exceeded")

  const LEADER_ERRORS := {TRANSFER_IN_PROGRESS, LEADERSHIP_LOST, IS_LEADER, ABORTED_BY_RESTORE}

  // -------------------------------------------- one request and its response

  /** How an Apply call ends; response is nil or the state machine's error. */
  datatype Future = Failed(error: Error) | Applied(response: Error)

  datatype Reply = ErrorReply(error: Error) | ApplyReply(response: Error)

  /** A response as transmitted. */
  datatype Wire = Wire(response: Error, error: string, retryable: bool)

  /** What the handling node replies; barrier is the error of the Barrier call that
      follows a successful Apply. */
  function ProcessApply(future: Future, barrier: Error): Reply {
    match future
    case Failed(e) => ErrorReply(NewRetryableError(e))
    case Applied(response) =>
      if response != Nil then ApplyReply(response)
      else if barrier != Nil then ErrorReply(NewRetryableError(barrier))
      else ApplyReply(Nil)
  }

  function SendRpcResponse(reply: Reply): Wire {
    match reply
    case ErrorReply(e) => Wire(Nil, Message(e), IsRetryable(e))
    case ApplyReply(response) => Wire(response, "", false)
  }

  /** Only responses that surely come from the leader are sent. */
  function SendLfwResponse(reply: Reply): Option<Wire> {
    var e := if reply.ErrorReply? then ErrorRetryable(reply.error) else Nil;
    if e == Nil || e in LEADER_ERRORS then Some(SendRpcResponse(reply)) else None
  }

  /** What the proposer makes of a response. */
  function ReceiveRpc(w: Wire): Error {
    if w.error == "" then w.response
    else if w.retryable then Retryable(Text(w.error))
    else Text(w.error)
  }

  /** One forwarding attempt's error, given the error of its context: equal errors are
      made retryable, and two nils stay nil. */
  function Iteration(err: Error, contextError: Error): Error {
    if err == contextError then NewRetryableError(err) else err
  }

  predicate SawNotLeader(future: Future, barrier: Error) {
    future == Failed(NOT_LEADER) || (future == Applied(Nil) && barrier == NOT_LEADER)
  }

  /** The proposer reads success exactly when Apply and Barrier succeeded, retries
      exactly on a leader's error, and hears nothing exactly of all other errors. */
  lemma ResponseMeaning(future: Future, barrier: Error)
    requires future.Failed? ==> future.error != Nil && !IsRetryable(future.error)
    requires future.Applied? ==> !IsRetryable(future.response)
    requires !IsRetryable(barrier)
    ensures var sent := SendLfwResponse(ProcessApply(future, barrier));
            var failure := if future.Failed? then future.error else if future.response == Nil then barrier else Nil;
            var leaders := {TRANSFER_IN_PROGRESS, LEADERSHIP_LOST, IS_LEADER, ABORTED_BY_RESTORE};
            && (sent == None <==> failure != Nil && failure !in leaders)
            && (SawNotLeader(future, barrier) ==> sent == None)
            && (sent.Some? ==>
                  && (ReceiveRpc(sent.value) == Nil <==> future == Applied(Nil) && barrier == Nil)
                  && (ReceiveRpc(sent.value).Retryable? <==> failure in leaders)
                  && (failure == Nil ==> ReceiveRpc(sent.value) == future.response)
                  && (failure != Nil ==>
                        && failure.Sentinel?
                        && ReceiveRpc(sent.value) == Retryable(Text("retryable error: " + failure.name))))
  {
  }

  // ----------------------------------------------------------- step system

  /** One Apply call: an attempt of a proposal, applied at a node. */
  datatype Ticket = Ticket(attempt: Attempt, node: Node)

  /** Idle: before the first attempt, or waiting to retry. */
  datatype Phase = Idle | Local(attempt: Attempt) | Forwarding(attempt: Attempt, cid: Cid) | Done(result: Error)

  datatype Call = Call(node: Node, command: Command, phase: Phase)

  datatype Proposal = Proposal(call: CallId, node: Node, command: Command)

  datatype Request = Request(attempt: Attempt, source: Node, command: Command)

  datatype Entry = Entry(ticket: Ticket, command: Command, response: Error)

  datatype Response = Response(cid: Cid, node: Node, wire: Wire)

  /** A broadcast as handled by one node. */
  datatype Handling = Handling(cid: Cid, node: Node)

  /** handed: given to Raft's Apply. pending: not settled by Raft yet. refused: answered with ErrNotLeader. silent:
      handlings that saw ErrNotLeader. */
  datatype System = System(
    nodes: set<Node>,
    calls: map<CallId, Call>,
    attempts: seq<Proposal>,
    requests: map<Cid, Request>,
    received: set<Handling>,
    processing: set<Handling>,
    handed: set<Ticket>,
    pending: map<Ticket, Command>,
    refused: set<Ticket>,
    silent: set<Handling>,
    committed: seq<Entry>,
    responses: set<Response>)

  datatype Label =
    | Propose(c: CallId, node: Node, command: Command)
    | Try(c: CallId)
    | FinishLocal(c: CallId, future: Future, cid: Cid)
    | FailForwarding(c: CallId, err: Error, expired: bool)
    | Receive(c: CallId, r: Response, expired: bool)
    | Cancel(c: CallId, err: Error)
    | Handle(h: Handling)
    | HandleClosed(h: Handling)
    | HandleUndecodable(h: Handling, text: string)
    | Finish(h: Handling, future: Future, barrier: Error)
    | Commit(t: Ticket, response: Error)
    | Drop(t: Ticket)

  function Initial(nodes: set<Node>): System {
    System(nodes, map[], [], map[], {}, {}, {}, map[], {}, {}, [], {})
  }

  predicate IsCommitted(committed: seq<Entry>, t: Ticket) {
    exists i :: 0 <= i < |committed| && committed[i].ticket == t
  }

  /** The oracle's rules. */
  predicate Answers(x: System, t: Ticket, future: Future) {
    match future
    case Applied(response) =>
      && !IsRetryable(response)
      && (exists i :: 0 <= i < |x.committed| && x.committed[i].ticket == t && x.committed[i].response == response)
    case Failed(e) =>
      e != Nil && !IsRetryable(e) && (e == NOT_LEADER ==> !IsCommitted(x.committed, t))
  }

  predicate InPhase(x: System, c: CallId, local: bool) {
    c in x.calls && if local then x.calls[c].phase.Local? else x.calls[c].phase.Forwarding?
  }

  function TicketOf(x: System, h: Handling): Ticket
    requires h.cid in x.requests
  {
    Ticket(x.requests[h.cid].attempt, h.node)
  }

  /** A node gets each broadcast once, and ignores its own. */
  predicate MayHandle(x: System, h: Handling) {
    h.cid in x.requests && h.node in x.nodes && h.node != x.requests[h.cid].source && h !in x.received
  }

  predicate Enabled(x: System, l: Label) {
    match l
    case Propose(c, node, command) => c !in x.calls && node in x.nodes
    case Try(c) => c in x.calls && x.calls[c].phase.Idle?
    case FinishLocal(c, future, cid) =>
      && InPhase(x, c, true) && Answers(x, Ticket(x.calls[c].phase.attempt, x.calls[c].node), future)
      && cid !in x.requests && cid != R.NO_CORRELATION
    case FailForwarding(c, err, _) => InPhase(x, c, false) && err != Nil
    case Receive(c, r, expired) =>
      InPhase(x, c, false) && r in x.responses && R.Matches(x.calls[c].phase.cid, r.cid)
    case Cancel(c, err) => c in x.calls && x.calls[c].phase.Idle? && err != Nil
    case Handle(h) => MayHandle(x, h)
    case HandleClosed(h) => MayHandle(x, h)
    case HandleUndecodable(h, text) => MayHandle(x, h) && text != ""
    case Finish(h, future, barrier) =>
      && h in x.processing && h.cid in x.requests && Answers(x, TicketOf(x, h), future)
      && !IsRetryable(barrier)
    case Commit(t, response) => t in x.pending && !IsRetryable(response)
    case Drop(t) => t in x.pending
  }

  function WithPhase(x: System, c: CallId, phase: Phase): System
    requires c in x.calls
  {
    x.(calls := x.calls[c := x.calls[c].(phase := phase)])
  }

  /** The loop of RetryWithBackoff: retryable errors are retried, others returned. */
  function After(err: Error): Phase {
    if IsRetryable(err) then Idle else Done(err)
  }

  function Refuse(x: System, t: Ticket): System {
    x.(pending := x.pending - {t}, refused := x.refused + {t})
  }

  function Respond(x: System, h: Handling, w: Wire): System {
    x.(responses := x.responses + {Response(h.cid, h.node, w)})
  }

  /** A node's reply is sent, or kept back. */
  function Answer(x: System, h: Handling, reply: Reply): System {
    var sent := SendLfwResponse(reply);
    if sent.Some? then Respond(x, h, sent.value) else x
  }

  function FinishedLocal(x: System, c: CallId, future: Future, cid: Cid): System
    requires InPhase(x, c, true)
  {
    var call := x.calls[c];
    var a := call.phase.attempt;
    match future
    case Applied(response) => WithPhase(x, c, Done(response))
    case Failed(e) =>
      if e != NOT_LEADER then WithPhase(x, c, After(NewRetryableError(e)))
      else
        var y := Refuse(WithPhase(x, c, Forwarding(a, cid)), Ticket(a, call.node));
        y.(requests := y.requests[cid := Request(a, call.node, call.command)])
  }

  function Finished(x: System, h: Handling, future: Future, barrier: Error): System
    requires h.cid in x.requests
  {
    var y := x.(processing := x.processing - {h},
                silent := if SawNotLeader(future, barrier) then x.silent + {h} else x.silent);
    var z := if future == Failed(NOT_LEADER) then Refuse(y, TicketOf(x, h)) else y;
    Answer(z, h, ProcessApply(future, barrier))
  }

  function Step(x: System, l: Label): System
    requires Enabled(x, l)
  {
    match l
    case Propose(c, node, command) => x.(calls := x.calls[c := Call(node, command, Idle)])
    case Try(c) =>
      var call := x.calls[c];
      var a := |x.attempts|;
      WithPhase(x, c, Local(a)).(attempts := x.attempts + [Proposal(c, call.node, call.command)],
                                 handed := x.handed + {Ticket(a, call.node)},
                                 pending := x.pending[Ticket(a, call.node) := call.command])
    case FinishLocal(c, future, cid) => FinishedLocal(x, c, future, cid)
    case FailForwarding(c, err, expired) =>
      WithPhase(x, c, After(Iteration(err, if expired then DEADLINE else Nil)))
    case Receive(c, r, expired) =>
      WithPhase(x, c, After(Iteration(ReceiveRpc(r.wire), if expired then DEADLINE else Nil)))
    case Cancel(c, err) => WithPhase(x, c, Done(err))
    case Handle(h) =>
      x.(received := x.received + {h}, processing := x.processing + {h},
         handed := x.handed + {TicketOf(x, h)},
         pending := x.pending[TicketOf(x, h) := x.requests[h.cid].command])
    case HandleClosed(h) =>
      Answer(x.(received := x.received + {h}, silent := x.silent + {h}), h, ErrorReply(NOT_LEADER))
    case HandleUndecodable(h, text) =>
      Respond(x.(received := x.received + {h}), h, SendRpcResponse(ErrorReply(Text(text))))
    case Finish(h, future, barrier) => Finished(x, h, future, barrier)
    case Commit(t, response) =>
      x.(committed := x.committed + [Entry(t, x.pending[t], response)], pending := x.pending - {t})
    case Drop(t) => x.(pending := x.pending - {t})
  }

  predicate CanRun(x: System, ls: seq<Label>)
    decreases |ls|
  {
    ls == [] || (Enabled(x, ls[0]) && CanRun(Step(x, ls[0]), ls[1..]))
  }

  function Run(x: System, ls: seq<Label>): System
    requires CanRun(x, ls)
    decreases |ls|
  {
    if ls == [] then x else Run(Step(x, ls[0]), ls[1..])
  }

  // ---------------------------------------------------------- the invariant

  type Calls = map<CallId, Call>
  type Requests = map<Cid, Request>

  /** Attempts belong to calls, and carry their commands. */
  predicate AttemptsRight(nodes: set<Node>, calls: Calls, attempts: seq<Proposal>) {
    && (forall c :: c in calls ==> calls[c].node in nodes)
    && (forall a :: 0 <= a < |attempts| ==>
          && attempts[a].call in calls
          && calls[attempts[a].call].node == attempts[a].node
          && calls[attempts[a].call].command == attempts[a].command)
  }

  predicate PhaseRight(c: CallId, call: Call, attempts: seq<Proposal>, requests: Requests, refused: set<Ticket>) {
    match call.phase
    case Local(a) => a < |attempts| && attempts[a].call == c && Ticket(a, call.node) !in refused
    case Forwarding(a, cid) =>
      && a < |attempts| && attempts[a].call == c
      && cid in requests && requests[cid].attempt == a && requests[cid].source == call.node
    case Idle => true
    case Done(_) => true
  }

  predicate PhasesRight(calls: Calls, attempts: seq<Proposal>, requests: Requests, refused: set<Ticket>) {
    forall c {:trigger PhaseRight(c, calls[c], attempts, requests, refused)} ::
      c in calls ==> PhaseRight(c, calls[c], attempts, requests, refused)
  }

  /** An attempt is broadcast once, after its own node refused it. */
  predicate RequestsRight(attempts: seq<Proposal>, requests: Requests, refused: set<Ticket>) {
    && (forall d :: d in requests ==>
          && requests[d].attempt < |attempts|
          && requests[d].source == attempts[requests[d].attempt].node
          && requests[d].command == attempts[requests[d].attempt].command
          && Ticket(requests[d].attempt, requests[d].source) in refused)
    && (forall d, e :: d in requests && e in requests && d != e ==> requests[d].attempt != requests[e].attempt)
  }

  predicate HandlingsRight(nodes: set<Node>, requests: Requests, received: set<Handling>, processing: set<Handling>,
                           silent: set<Handling>)
  {
    && (forall h :: h in received ==>
          h.cid in requests && h.node in nodes && h.node != requests[h.cid].source)
    && processing <= received && silent <= received && processing !! silent
  }

  /** A ticket is an attempt at its own node, or at one that handled its broadcast. */
  predicate Known(attempts: seq<Proposal>, requests: Requests, received: set<Handling>, t: Ticket) {
    && t.attempt < |attempts|
    && (t.node == attempts[t.attempt].node
        || exists h :: h in received && h.node == t.node && h.cid in requests && requests[h.cid].attempt == t.attempt)
  }

  predicate AllKnown(attempts: seq<Proposal>, requests: Requests, received: set<Handling>, tickets: set<Ticket>) {
    forall t {:trigger Known(attempts, requests, received, t)} ::
      t in tickets ==> Known(attempts, requests, received, t)
  }

  /** Raft settles what it was handed, and commits the commands of the attempts. */
  predicate TicketsHanded(attempts: seq<Proposal>, handed: set<Ticket>, pending: map<Ticket, Command>,
                          committed: seq<Entry>)
  {
    && (forall t :: t in handed ==> t.attempt < |attempts|)
    && pending.Keys <= handed
    && (forall t :: t in pending ==> pending[t] == attempts[t.attempt].command)
    && (forall i :: 0 <= i < |committed| ==>
          && committed[i].ticket in handed
          && committed[i].command == attempts[committed[i].ticket.attempt].command)
  }

  /** A ticket is committed at most once, and pending, refused and committed exclude
      each other. */
  predicate FatesExclusive(pending: map<Ticket, Command>, refused: set<Ticket>, committed: seq<Entry>) {
    && pending.Keys !! refused
    && (forall i :: 0 <= i < |committed| ==> committed[i].ticket !in pending && committed[i].ticket !in refused)
    && (forall i, j :: 0 <= i < j < |committed| ==> committed[i].ticket != committed[j].ticket)
  }

  predicate Succeeded(committed: seq<Entry>, t: Ticket) {
    exists i :: 0 <= i < |committed| && committed[i].ticket == t && committed[i].response == Nil
  }

  predicate ResponseRight(requests: Requests, received: set<Handling>, processing: set<Handling>,
                          silent: set<Handling>, committed: seq<Entry>, r: Response)
  {
    var h := Handling(r.cid, r.node);
    && h in received && h !in processing && h !in silent && r.cid in requests
    && (ReceiveRpc(r.wire) == Nil ==> Succeeded(committed, Ticket(requests[r.cid].attempt, r.node)))
  }

  predicate ResponsesRight(requests: Requests, received: set<Handling>, processing: set<Handling>,
                           silent: set<Handling>, committed: seq<Entry>, responses: set<Response>)
  {
    forall r {:trigger ResponseRight(requests, received, processing, silent, committed, r)} ::
      r in responses ==> ResponseRight(requests, received, processing, silent, committed, r)
  }

  /** An entry of this call's command was committed and applied without error. */
  predicate CommittedFor(committed: seq<Entry>, attempts: seq<Proposal>, c: CallId, command: Command) {
    exists i ::
      && 0 <= i < |committed| && committed[i].ticket.attempt < |attempts|
      && attempts[committed[i].ticket.attempt].call == c
      && committed[i].command == command && committed[i].response == Nil
  }

  predicate SuccessesRight(calls: Calls, attempts: seq<Proposal>, committed: seq<Entry>) {
    forall c {:trigger CommittedFor(committed, attempts, c, calls[c].command)} ::
      c in calls && calls[c].phase == Done(Nil) ==> CommittedFor(committed, attempts, c, calls[c].command)
  }

  ghost predicate Inv(x: System) {
    && AttemptsRight(x.nodes, x.calls, x.attempts)
    && PhasesRight(x.calls, x.attempts, x.requests, x.refused)
    && RequestsRight(x.attempts, x.requests, x.refused)
    && HandlingsRight(x.nodes, x.requests, x.received, x.processing, x.silent)
    && AllKnown(x.attempts, x.requests, x.received, x.handed + x.refused)
    && TicketsHanded(x.attempts, x.handed, x.pending, x.committed)
    && FatesExclusive(x.pending, x.refused, x.committed)
    && ResponsesRight(x.requests, x.received, x.processing, x.silent, x.committed, x.responses)
    && SuccessesRight(x.calls, x.attempts, x.committed)
  }

  // ------------------------------------------------------------- every step

  /** Tickets stay known as attempts, requests and handlings only grow. */
  lemma KnownStays(attempts: seq<Proposal>, requests: Requests, received: set<Handling>,
                   attempts': seq<Proposal>, requests': Requests, received': set<Handling>, tickets: set<Ticket>)
    requires AllKnown(attempts, requests, received, tickets)
    requires attempts <= attempts' && received <= received'
    requires forall d :: d in requests ==> d in requests' && requests'[d] == requests[d]
    ensures AllKnown(attempts', requests', received', tickets)
  {
    forall t | t in tickets
      ensures Known(attempts', requests', received', t)
    {
      assert Known(attempts, requests, received, t);
      if t.node != attempts[t.attempt].node {
        var h :| h in received && h.node == t.node && h.cid in requests && requests[h.cid].attempt == t.attempt;
        assert h in received' && h.cid in requests' && requests'[h.cid].attempt == t.attempt;
      }
    }
  }

  /** Successes stay as the log and the attempts only grow. */
  lemma SuccessStays(committed: seq<Entry>, committed': seq<Entry>, t: Ticket)
    requires committed <= committed' && Succeeded(committed, t)
    ensures Succeeded(committed', t)
  {
    var i :| 0 <= i < |committed| && committed[i].ticket == t && committed[i].response == Nil;
    assert committed'[i] == committed[i];
  }

  lemma CommittedForStays(committed: seq<Entry>, attempts: seq<Proposal>, committed': seq<Entry>,
                          attempts': seq<Proposal>, c: CallId, command: Command)
    requires committed <= committed' && attempts <= attempts' && CommittedFor(committed, attempts, c, command)
    ensures CommittedFor(committed', attempts', c, command)
  {
    var i :|
      && 0 <= i < |committed| && committed[i].ticket.attempt < |attempts|
      && attempts[committed[i].ticket.attempt].call == c
      && committed[i].command == command && committed[i].response == Nil;
    assert committed'[i] == committed[i];
  }

  /** Responses stay right as requests, handlings and the log only grow, if the nodes
      that responded neither process nor fall silent again. */
  lemma ResponsesStay(x: System, y: System)
    requires ResponsesRight(x.requests, x.received, x.processing, x.silent, x.committed, x.responses)
    requires forall d :: d in x.requests ==> d in y.requests && y.requests[d] == x.requests[d]
    requires x.received <= y.received && x.committed <= y.committed
    requires forall h :: h in x.received && h in y.processing ==> h in x.processing
    requires forall h :: h in x.received && h in y.silent ==> h in x.silent || h in x.processing
    ensures ResponsesRight(y.requests, y.received, y.processing, y.silent, y.committed, x.responses)
  {
    forall r | r in x.responses
      ensures ResponseRight(y.requests, y.received, y.processing, y.silent, y.committed, r)
    {
      assert ResponseRight(x.requests, x.received, x.processing, x.silent, x.committed, r);
      if ReceiveRpc(r.wire) == Nil {
        SuccessStays(x.committed, y.committed, Ticket(x.requests[r.cid].attempt, r.node));
      }
    }
  }

  /** Only the phase of one call changes. */
  lemma PhaseKeepsInv(x: System, c: CallId, phase: Phase)
    requires Inv(x) && c in x.calls
    requires phase.Idle? || (phase.Done? && (phase == Done(Nil) ==>
                               CommittedFor(x.committed, x.attempts, c, x.calls[c].command)))
    ensures Inv(WithPhase(x, c, phase))
  {
    var y := WithPhase(x, c, phase);
    forall d | d in y.calls
      ensures PhaseRight(d, y.calls[d], y.attempts, y.requests, y.refused)
    {
      assert PhaseRight(d, x.calls[d], x.attempts, x.requests, x.refused);
    }
  }

  lemma ProposeKeepsInv(x: System, l: Label)
    requires Inv(x) && Enabled(x, l) && l.Propose?
    ensures Inv(Step(x, l))
  {
    var y := Step(x, l);
    forall d | d in y.calls
      ensures PhaseRight(d, y.calls[d], y.attempts, y.requests, y.refused)
    {
      assert d != l.c ==> PhaseRight(d, x.calls[d], x.attempts, x.requests, x.refused);
    }
  }

  lemma TryKeepsPhases(x: System, c: CallId)
    requires Inv(x) && Enabled(x, Try(c))
    ensures var y := Step(x, Try(c));
            PhasesRight(y.calls, y.attempts, y.requests, y.refused)
  {
    var y := Step(x, Try(c));
    assert !Known(x.attempts, x.requests, x.received, Ticket(|x.attempts|, x.calls[c].node));
    forall d | d in y.calls
      ensures PhaseRight(d, y.calls[d], y.attempts, y.requests, y.refused)
    {
      assert PhaseRight(d, x.calls[d], x.attempts, x.requests, x.refused);
    }
  }

  lemma TryKeepsInv(x: System, c: CallId)
    requires Inv(x) && Enabled(x, Try(c))
    ensures Inv(Step(x, Try(c)))
  {
    var y := Step(x, Try(c));
    var t := Ticket(|x.attempts|, x.calls[c].node);
    assert !Known(x.attempts, x.requests, x.received, t);
    KnownStays(x.attempts, x.requests, x.received, y.attempts, x.requests, x.received,
               x.handed + x.refused);
    assert Known(y.attempts, y.requests, y.received, t);
    TryKeepsPhases(x, c);
    forall d | d in y.calls && y.calls[d].phase == Done(Nil)
      ensures CommittedFor(y.committed, y.attempts, d, y.calls[d].command)
    {
      CommittedForStays(x.committed, x.attempts, y.committed, y.attempts, d, x.calls[d].command);
    }
  }

  /** An entry that Raft applied for an attempt of this call makes it succeed. */
  lemma SuccessIsCommitted(x: System, c: CallId, t: Ticket)
    requires Inv(x) && c in x.calls && t.attempt < |x.attempts| && x.attempts[t.attempt].call == c
    requires Succeeded(x.committed, t)
    ensures CommittedFor(x.committed, x.attempts, c, x.calls[c].command)
  {
    var i :| 0 <= i < |x.committed| && x.committed[i].ticket == t && x.committed[i].response == Nil;
    assert x.committed[i].command == x.attempts[t.attempt].command;
  }

  /** A response that the proposer can act on answers its own current attempt, and was
      sent by another node. */
  lemma ResponseAnswersOwnAttempt(x: System, c: CallId, r: Response, expired: bool)
    requires Inv(x) && Enabled(x, Receive(c, r, expired))
    ensures r.cid in x.requests && x.requests[r.cid].attempt == x.calls[c].phase.attempt
    ensures Handling(r.cid, r.node) in x.received && Handling(r.cid, r.node) !in x.silent
    ensures r.node != x.calls[c].node
    ensures x.calls[c].phase.attempt < |x.attempts| && x.attempts[x.calls[c].phase.attempt].call == c
    ensures ReceiveRpc(r.wire) == Nil ==> Succeeded(x.committed, Ticket(x.calls[c].phase.attempt, r.node))
  {
    assert PhaseRight(c, x.calls[c], x.attempts, x.requests, x.refused);
    assert ResponseRight(x.requests, x.received, x.processing, x.silent, x.committed, r);
  }

  lemma ReceiveKeepsInv(x: System, c: CallId, r: Response, expired: bool)
    requires Inv(x) && Enabled(x, Receive(c, r, expired))
    ensures Inv(Step(x, Receive(c, r, expired)))
  {
    ResponseAnswersOwnAttempt(x, c, r, expired);
    var err := Iteration(ReceiveRpc(r.wire), if expired then DEADLINE else Nil);
    if err == Nil {
      SuccessIsCommitted(x, c, Ticket(x.calls[c].phase.attempt, r.node));
    }
    PhaseKeepsInv(x, c, After(err));
  }

  /** A refused ticket leaves Raft for good. */
  lemma RefuseKeepsFates(x: System, t: Ticket)
    requires Inv(x) && Known(x.attempts, x.requests, x.received, t) && !IsCommitted(x.committed, t)
    ensures var y := Refuse(x, t);
            && AllKnown(y.attempts, y.requests, y.received, y.handed + y.refused)
            && TicketsHanded(y.attempts, y.handed, y.pending, y.committed)
            && FatesExclusive(y.pending, y.refused, y.committed)
  {
    var y := Refuse(x, t);
    forall i | 0 <= i < |y.committed|
      ensures y.committed[i].ticket !in y.pending && y.committed[i].ticket !in y.refused
    {
      assert x.committed[i].ticket != t;
    }
  }

  /** The broadcast's attempt was not broadcast before. */
  lemma BroadcastIsNew(x: System, c: CallId, cid: Cid)
    requires Inv(x) && InPhase(x, c, true) && cid !in x.requests
    ensures var a := x.calls[c].phase.attempt;
            && Known(x.attempts, x.requests, x.received, Ticket(a, x.calls[c].node))
            && RequestsRight(x.attempts, x.requests[cid := Request(a, x.calls[c].node, x.calls[c].command)],
                             x.refused + {Ticket(a, x.calls[c].node)})
  {
    assert PhaseRight(c, x.calls[c], x.attempts, x.requests, x.refused);
  }

  lemma RefuseLocalKeepsPhases(x: System, c: CallId, cid: Cid)
    requires Inv(x) && InPhase(x, c, true) && cid !in x.requests
    ensures var y := FinishedLocal(x, c, Failed(NOT_LEADER), cid);
            PhasesRight(y.calls, y.attempts, y.requests, y.refused)
  {
    var y := FinishedLocal(x, c, Failed(NOT_LEADER), cid);
    assert PhaseRight(c, x.calls[c], x.attempts, x.requests, x.refused);
    forall d | d in y.calls
      ensures PhaseRight(d, y.calls[d], y.attempts, y.requests, y.refused)
    {
      assert PhaseRight(d, x.calls[d], x.attempts, x.requests, x.refused);
    }
  }

  lemma RefuseLocalKeepsInv(x: System, c: CallId, cid: Cid)
    requires Inv(x) && Enabled(x, FinishLocal(c, Failed(NOT_LEADER), cid))
    ensures Inv(FinishedLocal(x, c, Failed(NOT_LEADER), cid))
  {
    var y := FinishedLocal(x, c, Failed(NOT_LEADER), cid);
    BroadcastIsNew(x, c, cid);
    RefuseKeepsFates(x, Ticket(x.calls[c].phase.attempt, x.calls[c].node));
    RefuseLocalKeepsPhases(x, c, cid);
    KnownStays(x.attempts, x.requests, x.received, y.attempts, y.requests, y.received,
               y.handed + y.refused);
    ResponsesStay(x, y);
    assert HandlingsRight(y.nodes, y.requests, y.received, y.processing, y.silent);
  }

  lemma FinishLocalKeepsInv(x: System, c: CallId, future: Future, cid: Cid)
    requires Inv(x) && Enabled(x, FinishLocal(c, future, cid))
    ensures Inv(Step(x, FinishLocal(c, future, cid)))
  {
    assert PhaseRight(c, x.calls[c], x.attempts, x.requests, x.refused);
    match future
    case Applied(response) =>
      if response == Nil {
        SuccessIsCommitted(x, c, Ticket(x.calls[c].phase.attempt, x.calls[c].node));
      }
      PhaseKeepsInv(x, c, Done(response));
    case Failed(e) =>
      if e == NOT_LEADER {
        RefuseLocalKeepsInv(x, c, cid);
      } else {
        PhaseKeepsInv(x, c, Idle);
      }
  }

  lemma RemoteTicketIsNew(x: System, h: Handling)
    requires Inv(x) && MayHandle(x, h)
    ensures !Known(x.attempts, x.requests, x.received, TicketOf(x, h))
  {
  }

  /** A node that takes up a broadcast hands its attempt over once. */
  lemma HandleKeepsTickets(x: System, h: Handling)
    requires Inv(x) && MayHandle(x, h)
    ensures var received, t := x.received + {h}, TicketOf(x, h);
            var pending := x.pending[t := x.requests[h.cid].command];
            && AllKnown(x.attempts, x.requests, received, x.handed + {t} + x.refused)
            && AllKnown(x.attempts, x.requests, received, x.handed + x.refused)
            && TicketsHanded(x.attempts, x.handed + {t}, pending, x.committed)
            && FatesExclusive(pending, x.refused, x.committed)
  {
    var received := x.received + {h};
    RemoteTicketIsNew(x, h);
    KnownStays(x.attempts, x.requests, x.received, x.attempts, x.requests, received, x.handed + x.refused);
    assert Known(x.attempts, x.requests, received, TicketOf(x, h));
  }

  lemma HandleKeepsInv(x: System, h: Handling)
    requires Inv(x) && MayHandle(x, h)
    ensures Inv(Step(x, Handle(h)))
  {
    HandleKeepsTickets(x, h);
    ResponsesStay(x, Step(x, Handle(h)));
  }

  lemma ClosedIsSilent()
    ensures SendLfwResponse(ErrorReply(NOT_LEADER)) == None
  {
  }

  lemma HandleClosedKeepsInv(x: System, h: Handling)
    requires Inv(x) && MayHandle(x, h)
    ensures Inv(Step(x, HandleClosed(h)))
  {
    var y := x.(received := x.received + {h}, silent := x.silent + {h});
    ClosedIsSilent();
    assert Step(x, HandleClosed(h)) == y;
    HandleKeepsTickets(x, h);
    ResponsesStay(x, y);
  }

  lemma HandleUndecodableKeepsInv(x: System, h: Handling, text: string)
    requires Inv(x) && Enabled(x, HandleUndecodable(h, text))
    ensures Inv(Step(x, HandleUndecodable(h, text)))
  {
    var y := x.(received := x.received + {h});
    var r := Response(h.cid, h.node, Wire(Nil, text, false));
    HandleKeepsTickets(x, h);
    ResponsesStay(x, y);
    assert ResponseRight(y.requests, y.received, y.processing, y.silent, y.committed, r);
    assert Step(x, HandleUndecodable(h, text)) == y.(responses := x.responses + {r});
  }

  lemma FinishKeepsResponses(x: System, h: Handling, future: Future, barrier: Error)
    requires Inv(x) && Enabled(x, Finish(h, future, barrier))
    ensures var y := Finished(x, h, future, barrier);
            ResponsesRight(y.requests, y.received, y.processing, y.silent, y.committed, y.responses)
  {
    var y := Finished(x, h, future, barrier);
    ResponseMeaning(future, barrier);
    ResponsesStay(x, y);
  }

  lemma RequestsStay(attempts: seq<Proposal>, requests: Requests, refused: set<Ticket>, refused': set<Ticket>)
    requires RequestsRight(attempts, requests, refused) && refused <= refused'
    ensures RequestsRight(attempts, requests, refused')
  {
  }

  lemma FinishKeepsTickets(x: System, h: Handling, future: Future, barrier: Error)
    requires Inv(x) && Enabled(x, Finish(h, future, barrier))
    ensures var y := Finished(x, h, future, barrier);
            && AllKnown(y.attempts, y.requests, y.received, y.handed + y.refused)
            && TicketsHanded(y.attempts, y.handed, y.pending, y.committed)
            && FatesExclusive(y.pending, y.refused, y.committed)
            && RequestsRight(y.attempts, y.requests, y.refused)
  {
    if future == Failed(NOT_LEADER) {
      var t := TicketOf(x, h);
      assert Known(x.attempts, x.requests, x.received, t);
      RefuseKeepsFates(x, t);
      RequestsStay(x.attempts, x.requests, x.refused, x.refused + {t});
    }
  }

  /** Only remote tickets are refused here: no local attempt is concerned. */
  lemma FinishKeepsPhases(x: System, h: Handling, future: Future, barrier: Error)
    requires Inv(x) && Enabled(x, Finish(h, future, barrier))
    ensures var y := Finished(x, h, future, barrier);
            PhasesRight(y.calls, y.attempts, y.requests, y.refused)
  {
    var y := Finished(x, h, future, barrier);
    forall d | d in y.calls
      ensures PhaseRight(d, y.calls[d], y.attempts, y.requests, y.refused)
    {
      assert PhaseRight(d, x.calls[d], x.attempts, x.requests, x.refused);
    }
  }

  lemma FinishKeepsInv(x: System, h: Handling, future: Future, barrier: Error)
    requires Inv(x) && Enabled(x, Finish(h, future, barrier))
    ensures Inv(Finished(x, h, future, barrier))
  {
    FinishKeepsTickets(x, h, future, barrier);
    FinishKeepsPhases(x, h, future, barrier);
    FinishKeepsResponses(x, h, future, barrier);
  }

  lemma CommitKeepsTickets(x: System, t: Ticket, response: Error)
    requires Inv(x) && Enabled(x, Commit(t, response))
    ensures var y := Step(x, Commit(t, response));
            && TicketsHanded(y.attempts, y.handed, y.pending, y.committed)
            && FatesExclusive(y.pending, y.refused, y.committed)
  {
  }

  lemma CommitKeepsInv(x: System, t: Ticket, response: Error)
    requires Inv(x) && Enabled(x, Commit(t, response))
    ensures Inv(Step(x, Commit(t, response)))
  {
    var y := Step(x, Commit(t, response));
    CommitKeepsTickets(x, t, response);
    ResponsesStay(x, y);
    forall c | c in y.calls && y.calls[c].phase == Done(Nil)
      ensures CommittedFor(y.committed, y.attempts, c, y.calls[c].command)
    {
      CommittedForStays(x.committed, x.attempts, y.committed, y.attempts, c, x.calls[c].command);
    }
  }

  lemma DropKeepsInv(x: System, t: Ticket)
    requires Inv(x) && Enabled(x, Drop(t))
    ensures Inv(Step(x, Drop(t)))
  {
  }

  lemma StepKeepsInv(x: System, l: Label)
    requires Inv(x) && Enabled(x, l)
    ensures Inv(Step(x, l))
  {
    match l
    case Propose(_, _, _) => ProposeKeepsInv(x, l);
    case Try(c) => TryKeepsInv(x, c);
    case FinishLocal(c, future, cid) => FinishLocalKeepsInv(x, c, future, cid);
    case FailForwarding(c, err, expired) =>
      PhaseKeepsInv(x, c, After(Iteration(err, if expired then DEADLINE else Nil)));
    case Receive(c, r, expired) => ReceiveKeepsInv(x, c, r, expired);
    case Cancel(c, err) => PhaseKeepsInv(x, c, Done(err));
    case Handle(h) => HandleKeepsInv(x, h);
    case HandleClosed(h) => HandleClosedKeepsInv(x, h);
    case HandleUndecodable(h, text) => HandleUndecodableKeepsInv(x, h, text);
    case Finish(h, future, barrier) => FinishKeepsInv(x, h, future, barrier);
    case Commit(t, response) => CommitKeepsInv(x, t, response);
    case Drop(t) => DropKeepsInv(x, t);
  }

  lemma {:induction false} RunKeepsInv(x: System, ls: seq<Label>)
    requires Inv(x) && CanRun(x, ls)
    ensures Inv(Run(x, ls))
    decreases |ls|
  {
    if ls != [] {
      StepKeepsInv(x, ls[0]);
      RunKeepsInv(Step(x, ls[0]), ls[1..]);
    }
  }

  // --------------------------------------------------------- runs in a row

  lemma {:induction false} RunConcat(x: System, ls: seq<Label>, more: seq<Label>)
    requires CanRun(x, ls) && CanRun(Run(x, ls), more)
    ensures CanRun(x, ls + more) && Run(x, ls + more) == Run(Run(x, ls), more)
    decreases |ls|
  {
    if ls == [] {
      assert ls + more == more;
    } else {
      RunConcat(Step(x, ls[0]), ls[1..], more);
      assert (ls + more)[1..] == ls[1..] + more;
    }
  }

  lemma RunSnoc(x: System, ls: seq<Label>, l: Label)
    requires CanRun(x, ls) && Enabled(Run(x, ls), l)
    ensures CanRun(x, ls + [l]) && Run(x, ls + [l]) == Step(Run(x, ls), l)
  {
    assert [l][1..] == [];
    RunConcat(x, ls, [l]);
  }
}
