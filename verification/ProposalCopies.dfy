/**
 How often one proposal ends up in the log. Raft may commit it under every ticket that
 it was handed for it and has not refused or dropped.
 */
module ProposalCopies {
  import opened LeaderForwarding
  import opened Services

  /** The ticket is of an attempt of the proposal. */
  predicate IsOf(t: Ticket, attempts: seq<Proposal>, c: CallId) {
    t.attempt < |attempts| && attempts[t.attempt].call == c
  }

  predicate IsCopy(e: Entry, attempts: seq<Proposal>, c: CallId) {
    IsOf(e.ticket, attempts, c)
  }

  /** How often a proposal is in the log. */
  function Copies(committed: seq<Entry>, attempts: seq<Proposal>, c: CallId): nat {
    if committed == [] then 0
    else Copies(committed[..|committed| - 1], attempts, c)
         + if IsCopy(committed[|committed| - 1], attempts, c) then 1 else 0
  }

  function Tries(attempts: seq<Proposal>, c: CallId): nat {
    if attempts == [] then 0
    else Tries(attempts[..|attempts| - 1], c) + if attempts[|attempts| - 1].call == c then 1 else 0
  }

  function CopyTickets(committed: seq<Entry>, attempts: seq<Proposal>, c: CallId): set<Ticket> {
    set i | 0 <= i < |committed| && IsCopy(committed[i], attempts, c) :: committed[i].ticket
  }

  /** Nodes that can commit one attempt: its own, or all others. */
  function Spread(nodes: set<Node>): nat {
    if |nodes| <= 2 then 1 else |nodes| - 1
  }

  lemma CopyTicketsSnoc(committed: seq<Entry>, e: Entry, attempts: seq<Proposal>, c: CallId)
    ensures CopyTickets(committed + [e], attempts, c)
            == CopyTickets(committed, attempts, c) + if IsCopy(e, attempts, c) then {e.ticket} else {}
  {
    var after := committed + [e];
    forall t | t in CopyTickets(committed, attempts, c)
      ensures t in CopyTickets(after, attempts, c)
    {
      var i :| 0 <= i < |committed| && IsCopy(committed[i], attempts, c) && committed[i].ticket == t;
      assert after[i] == committed[i];
    }
    assert after[|committed|] == e;
  }

  predicate TicketsDistinct(committed: seq<Entry>) {
    forall i, j :: 0 <= i < j < |committed| ==> committed[i].ticket != committed[j].ticket
  }

  lemma LastTicketIsNew(committed: seq<Entry>, n: nat, attempts: seq<Proposal>, c: CallId)
    requires TicketsDistinct(committed) && n < |committed|
    ensures committed[n].ticket !in CopyTickets(committed[..n], attempts, c)
    ensures TicketsDistinct(committed[..n])
  {
  }

  lemma {:induction false} CopiesHaveTickets(committed: seq<Entry>, attempts: seq<Proposal>, c: CallId)
    requires TicketsDistinct(committed)
    ensures Copies(committed, attempts, c) == |CopyTickets(committed, attempts, c)|
  {
    if committed != [] {
      var n := |committed| - 1;
      LastTicketIsNew(committed, n, attempts, c);
      CopiesHaveTickets(committed[..n], attempts, c);
      CopyTicketsSnoc(committed[..n], committed[n], attempts, c);
      assert committed[..n] + [committed[n]] == committed;
    }
  }

  lemma {:induction false} NodesBound(ts: set<Ticket>, a: Attempt, nodes: set<Node>)
    requires forall t :: t in ts ==> t.attempt == a && t.node in nodes
    ensures |ts| <= |nodes|
    decreases |ts|
  {
    if ts != {} {
      var t :| t in ts;
      NodesBound(ts - {t}, a, nodes - {t.node});
    }
  }

  /** Either its own node or only others. */
  predicate OneSided(ts: set<Ticket>, a: Attempt, source: Node, nodes: set<Node>) {
    && (forall t :: t in ts && t.attempt == a ==> t.node in nodes)
    && ((forall t :: t in ts && t.attempt == a ==> t.node == source)
        || (forall t :: t in ts && t.attempt == a ==> t.node != source))
  }

  lemma OneAttemptBound(ts: set<Ticket>, a: Attempt, source: Node, nodes: set<Node>)
    requires source in nodes && OneSided(ts, a, source, nodes)
    ensures |set t | t in ts && t.attempt == a| <= Spread(nodes)
  {
    var own := set t | t in ts && t.attempt == a;
    if forall t :: t in own ==> t.node == source {
      NodesBound(own, a, {source});
    } else {
      NodesBound(own, a, nodes - {source});
      assert |nodes - {source}| == |nodes| - 1;
    }
  }

  predicate AllOneSided(ts: set<Ticket>, attempts: seq<Proposal>, nodes: set<Node>) {
    forall a :: 0 <= a < |attempts| ==> attempts[a].node in nodes && OneSided(ts, a, attempts[a].node, nodes)
  }

  predicate AreCopies(ts: set<Ticket>, attempts: seq<Proposal>, c: CallId) {
    forall t :: t in ts ==> t.attempt < |attempts| && attempts[t.attempt].call == c
  }

  lemma WithoutLastAttempt(ts: set<Ticket>, attempts: seq<Proposal>, nodes: set<Node>, c: CallId)
    requires attempts != [] && AllOneSided(ts, attempts, nodes) && AreCopies(ts, attempts, c)
    ensures var rest := set t | t in ts && t.attempt != |attempts| - 1;
            AllOneSided(rest, attempts[..|attempts| - 1], nodes) && AreCopies(rest, attempts[..|attempts| - 1], c)
  {
    var k := |attempts| - 1;
    var rest := set t | t in ts && t.attempt != k;
    forall a | 0 <= a < k
      ensures attempts[..k][a].node in nodes && OneSided(rest, a, attempts[..k][a].node, nodes)
    {
      assert OneSided(ts, a, attempts[a].node, nodes);
    }
  }

  /** most for every attempt of the proposal. */
  function Total(attempts: seq<Proposal>, c: CallId, most: nat): nat {
    if attempts == [] then 0
    else Total(attempts[..|attempts| - 1], c, most) + if attempts[|attempts| - 1].call == c then most else 0
  }

  lemma {:induction false} TotalIsProduct(attempts: seq<Proposal>, c: CallId, most: nat)
    ensures Total(attempts, c, most) == Tries(attempts, c) * most
  {
    if attempts != [] {
      var before := attempts[..|attempts| - 1];
      TotalIsProduct(before, c, most);
      assert (Tries(before, c) + 1) * most == Tries(before, c) * most + most;
    }
  }

  lemma SplitByAttempt(ts: set<Ticket>, k: Attempt)
    ensures |ts| == |set t | t in ts && t.attempt != k| + |set t | t in ts && t.attempt == k|
  {
    var own := set t | t in ts && t.attempt == k;
    var rest := set t | t in ts && t.attempt != k;
    assert ts == rest + own;
  }

  lemma {:induction false} TicketsBound(ts: set<Ticket>, attempts: seq<Proposal>, nodes: set<Node>, c: CallId)
    requires AllOneSided(ts, attempts, nodes) && AreCopies(ts, attempts, c)
    ensures |ts| <= Total(attempts, c, Spread(nodes))
    decreases |attempts|
  {
    if attempts == [] {
      assert ts == {};
    } else {
      var k := |attempts| - 1;
      var own := set t | t in ts && t.attempt == k;
      var rest := set t | t in ts && t.attempt != k;
      SplitByAttempt(ts, k);
      WithoutLastAttempt(ts, attempts, nodes, c);
      TicketsBound(rest, attempts[..k], nodes, c);
      if attempts[k].call == c {
        OneAttemptBound(ts, k, attempts[k].node, nodes);
      } else {
        assert own == {};
      }
    }
  }

  lemma CopiesAreOneSided(x: System, c: CallId, a: Attempt)
    requires Inv(x) && a < |x.attempts|
    ensures x.attempts[a].node in x.nodes
    ensures OneSided(CopyTickets(x.committed, x.attempts, c), a, x.attempts[a].node, x.nodes)
  {
    var ts := CopyTickets(x.committed, x.attempts, c);
    var source := x.attempts[a].node;
    forall t | t in ts && t.attempt == a
      ensures t.node in x.nodes
      ensures t.node != source ==> Ticket(a, source) in x.refused
    {
      assert Known(x.attempts, x.requests, x.received, t);
    }
    if Ticket(a, source) in x.refused {
      assert forall t :: t in ts && t.attempt == a ==> t.node != source;
    }
  }

  /** Nothing is committed unasked: every entry carries the command of the proposal it
      is attributed to, at the proposer or at a node that handled the broadcast, and at
      most once per attempt and node. So there are at most as many copies of a proposal
      as attempts, times the nodes that can commit an attempt. */
  lemma CopiesAreBounded(nodes: set<Node>, ls: seq<Label>, c: CallId)
    requires CanRun(Initial(nodes), ls)
    ensures var x := Run(Initial(nodes), ls);
            && (forall i :: 0 <= i < |x.committed| ==>
                  && x.committed[i].ticket in x.handed - x.refused
                  && Known(x.attempts, x.requests, x.received, x.committed[i].ticket)
                  && x.committed[i].command == x.attempts[x.committed[i].ticket.attempt].command)
            && (forall i, j :: 0 <= i < j < |x.committed| ==> x.committed[i].ticket != x.committed[j].ticket)
            && Copies(x.committed, x.attempts, c)
               <= Tries(x.attempts, c) * (if |x.nodes| <= 2 then 1 else |x.nodes| - 1)
  {
    RunKeepsInv(Initial(nodes), ls);
    var x := Run(Initial(nodes), ls);
    forall a | 0 <= a < |x.attempts|
      ensures x.attempts[a].node in x.nodes
              && OneSided(CopyTickets(x.committed, x.attempts, c), a, x.attempts[a].node, x.nodes)
    {
      CopiesAreOneSided(x, c, a);
    }
    CopiesHaveTickets(x.committed, x.attempts, c);
    TicketsBound(CopyTickets(x.committed, x.attempts, c), x.attempts, x.nodes, c);
    TotalIsProduct(x.attempts, c, Spread(x.nodes));
  }

  // ------------------------------------------------- when a proposal stays single

  function PendingTickets(x: System, c: CallId): set<Ticket> {
    set t | t in x.pending && IsOf(t, x.attempts, c)
  }

  /** The tickets under which the proposal is in the log, or may still get there. */
  function LiveTickets(x: System, c: CallId): set<Ticket> {
    CopyTickets(x.committed, x.attempts, c) + PendingTickets(x, c)
  }

  /** Raft is handed nothing. */
  predicate Quiet(ls: seq<Label>) {
    forall i :: 0 <= i < |ls| ==> !ls[i].Try? && !ls[i].Handle?
  }

  /** Some continuation in which Raft is handed nothing more commits a second copy. */
  ghost predicate CanDuplicate(x: System, c: CallId) {
    exists more :: CanRun(x, more) && Quiet(more) && Copies(Run(x, more).committed, Run(x, more).attempts, c) >= 2
  }

  lemma CommitMovesTicket(x: System, c: CallId, t: Ticket, response: Error)
    requires Enabled(x, Commit(t, response))
    ensures LiveTickets(Step(x, Commit(t, response)), c) == LiveTickets(x, c)
    ensures PendingTickets(Step(x, Commit(t, response)), c) == PendingTickets(x, c) - {t}
  {
    CopyTicketsSnoc(x.committed, Entry(t, x.pending[t], response), x.attempts, c);
  }

  lemma LiveNeverGrows(x: System, l: Label, c: CallId)
    requires Enabled(x, l) && !l.Try? && !l.Handle?
    ensures LiveTickets(Step(x, l), c) <= LiveTickets(x, c)
  {
    if l.Commit? {
      CommitMovesTicket(x, c, l.t, l.response);
    } else {
      var y := Step(x, l);
      assert y.attempts == x.attempts && y.committed == x.committed;
      assert y.pending.Keys <= x.pending.Keys;
    }
  }

  lemma {:induction false} LiveNeverGrowsInRun(x: System, ls: seq<Label>, c: CallId)
    requires CanRun(x, ls) && Quiet(ls)
    ensures LiveTickets(Run(x, ls), c) <= LiveTickets(x, c)
    decreases |ls|
  {
    if ls != [] {
      LiveNeverGrows(x, ls[0], c);
      assert Quiet(ls[1..]);
      LiveNeverGrowsInRun(Step(x, ls[0]), ls[1..], c);
    }
  }

  lemma SubsetIsSmaller(a: set<Ticket>, b: set<Ticket>)
    requires a <= b
    ensures |a| <= |b|
  {
    assert b == a + (b - a);
  }

  /** In a quiet continuation there are never more copies than live tickets now. */
  lemma CopiesWithinLive(x: System, more: seq<Label>, c: CallId)
    requires Inv(x) && CanRun(x, more) && Quiet(more)
    ensures Copies(Run(x, more).committed, Run(x, more).attempts, c) <= |LiveTickets(x, c)|
  {
    var y := Run(x, more);
    RunKeepsInv(x, more);
    LiveNeverGrowsInRun(x, more, c);
    CopiesHaveTickets(y.committed, y.attempts, c);
    SubsetIsSmaller(CopyTickets(y.committed, y.attempts, c), LiveTickets(x, c));
  }

  lemma RunCons(x: System, l: Label, rest: seq<Label>)
    requires Enabled(x, l) && CanRun(Step(x, l), rest)
    ensures CanRun(x, [l] + rest) && Run(x, [l] + rest) == Run(Step(x, l), rest)
    ensures Quiet(rest) && !l.Try? && !l.Handle? ==> Quiet([l] + rest)
  {
    assert ([l] + rest)[1..] == rest;
  }

  /** Raft may commit everything it still can. */
  lemma {:induction false} AllMayCommit(x: System, c: CallId) returns (more: seq<Label>)
    requires Inv(x)
    ensures CanRun(x, more) && Quiet(more)
    ensures Copies(Run(x, more).committed, Run(x, more).attempts, c) == |LiveTickets(x, c)|
    decreases |PendingTickets(x, c)|
  {
    if PendingTickets(x, c) == {} {
      more := [];
      CopiesHaveTickets(x.committed, x.attempts, c);
      assert LiveTickets(x, c) == CopyTickets(x.committed, x.attempts, c);
    } else {
      var t :| t in PendingTickets(x, c);
      CommitMovesTicket(x, c, t, Nil);
      StepKeepsInv(x, Commit(t, Nil));
      var rest := AllMayCommit(Step(x, Commit(t, Nil)), c);
      RunCons(x, Commit(t, Nil), rest);
      more := [Commit(t, Nil)] + rest;
    }
  }

  /** In every reachable state: a second copy can still come about without Raft being
      handed anything more if and only if two tickets of the proposal, of one attempt
      or of several, are in the log or not settled. */
  lemma DuplicatesExactly(nodes: set<Node>, ls: seq<Label>, c: CallId)
    requires CanRun(Initial(nodes), ls)
    ensures CanDuplicate(Run(Initial(nodes), ls), c) <==> |LiveTickets(Run(Initial(nodes), ls), c)| >= 2
  {
    var x := Run(Initial(nodes), ls);
    RunKeepsInv(Initial(nodes), ls);
    if CanDuplicate(x, c) {
      var more :| CanRun(x, more) && Quiet(more)
                  && Copies(Run(x, more).committed, Run(x, more).attempts, c) >= 2;
      CopiesWithinLive(x, more, c);
    }
    if |LiveTickets(x, c)| >= 2 {
      var more := AllMayCommit(x, c);
      assert CanRun(x, more);
    }
  }

  lemma LiveIsUnrefused(x: System, c: CallId, t: Ticket)
    requires Inv(x) && t in LiveTickets(x, c)
    ensures t in x.handed && t !in x.refused && IsOf(t, x.attempts, c)
  {
    if t in CopyTickets(x.committed, x.attempts, c) {
      var i :| 0 <= i < |x.committed| && IsCopy(x.committed[i], x.attempts, c) && x.committed[i].ticket == t;
    }
  }

  /** A proposal stays single if Raft refused every ticket of it but one with
      ErrNotLeader: other errors are no such guarantee. */
  lemma OneUnrefusedTicketIsSingle(nodes: set<Node>, ls: seq<Label>, more: seq<Label>, c: CallId, only: Ticket)
    requires CanRun(Initial(nodes), ls) && CanRun(Run(Initial(nodes), ls), more) && Quiet(more)
    requires var x := Run(Initial(nodes), ls);
             forall t :: t in x.handed && IsOf(t, x.attempts, c) && t != only ==> t in x.refused
    ensures var y := Run(Run(Initial(nodes), ls), more);
            Copies(y.committed, y.attempts, c) <= 1
  {
    var x := Run(Initial(nodes), ls);
    RunKeepsInv(Initial(nodes), ls);
    CopiesWithinLive(x, more, c);
    assert LiveTickets(x, c) <= {only} by {
      forall t | t in LiveTickets(x, c)
        ensures t == only
      {
        LiveIsUnrefused(x, c, t);
      }
    }
    SubsetIsSmaller(LiveTickets(x, c), {only});
  }

  // ------------------------------------------------- proposals committed twice

  const FIRST_CID := "1"

  lemma ProposeAndTry(nodes: set<Node>, node: Node, command: Command) returns (ls: seq<Label>)
    requires node in nodes
    ensures CanRun(Initial(nodes), ls)
    ensures Run(Initial(nodes), ls) == Tried(nodes, node, command)
  {
    var x := Initial(nodes);
    assert CanRun(x, []);
    RunSnoc(x, [], Propose(0, node, command));
    ls := [] + [Propose(0, node, command)];
    RunSnoc(x, ls, Try(0));
    ls := ls + [Try(0)];
    assert Run(x, ls).calls == Tried(nodes, node, command).calls;
    assert Run(x, ls).handed == {Ticket(0, node)};
  }

  /** The proposal of one node, tried once. */
  function Tried(nodes: set<Node>, node: Node, command: Command): System {
    Initial(nodes).(
    calls := map[0 := Call(node, command, Local(0))],
    attempts := [Proposal(0, node, command)],
    handed := {Ticket(0, node)},
    pending := map[Ticket(0, node) := command])
  }

  lemma TwoCopies(e0: Entry, e1: Entry, attempts: seq<Proposal>, c: CallId)
    requires IsCopy(e0, attempts, c) && IsCopy(e1, attempts, c)
    ensures Copies([e0, e1], attempts, c) == 2
  {
    assert [e0, e1][..1] == [e0] && [e0][..0] == [];
    assert Copies([], attempts, c) == 0 && Copies([e0], attempts, c) == 1;
  }

  /** The proposal tried again, after its first ticket was committed unknown to it. */
  function TriedAgain(nodes: set<Node>, node: Node, command: Command): System {
    Initial(nodes).(
    calls := map[0 := Call(node, command, Local(1))],
    attempts := [Proposal(0, node, command), Proposal(0, node, command)],
    handed := {Ticket(0, node), Ticket(1, node)},
    pending := map[Ticket(1, node) := command],
    committed := [Entry(Ticket(0, node), command, Nil)])
  }

  /** The first ticket is committed. */
  lemma CommitFirst(nodes: set<Node>, node: Node, command: Command) returns (ls: seq<Label>)
    requires node in nodes
    ensures CanRun(Initial(nodes), ls)
    ensures Run(Initial(nodes), ls) == Tried(nodes, node, command).(
                                       pending := map[], committed := [Entry(Ticket(0, node), command, Nil)])
  {
    var x, t := Initial(nodes), Ticket(0, node);
    ls := ProposeAndTry(nodes, node, command);
    RunSnoc(x, ls, Commit(t, Nil));
    ls := ls + [Commit(t, Nil)];
    assert Run(x, ls).pending == map[] && Run(x, ls).committed == [Entry(t, command, Nil)];
  }

  lemma TryAgain(nodes: set<Node>, node: Node, command: Command) returns (ls: seq<Label>)
    requires node in nodes
    ensures CanRun(Initial(nodes), ls) && Run(Initial(nodes), ls) == TriedAgain(nodes, node, command)
  {
    var x := Initial(nodes);
    var fail := FinishLocal(0, Failed(LEADERSHIP_LOST), FIRST_CID);
    ls := CommitFirst(nodes, node, command);
    RunSnoc(x, ls, fail);
    ls := ls + [fail];
    RunSnoc(x, ls, Try(0));
    ls := ls + [Try(0)];
    assert Run(x, ls).calls == TriedAgain(nodes, node, command).calls;
    assert Run(x, ls).handed == TriedAgain(nodes, node, command).handed;
  }

  /** Retrying after an error that hides a commit. */
  lemma RetryMayCommitTwice(nodes: set<Node>, node: Node, command: Command) returns (ls: seq<Label>)
    requires node in nodes
    ensures CanRun(Initial(nodes), ls)
    ensures var x := Run(Initial(nodes), ls);
            && 0 in x.calls && x.calls[0].phase == Done(Nil)
            && x.committed == [Entry(Ticket(0, node), command, Nil), Entry(Ticket(1, node), command, Nil)]
            && Copies(x.committed, x.attempts, 0) == 2
  {
    var x, t := Initial(nodes), Ticket(1, node);
    ls := TryAgain(nodes, node, command);
    RunSnoc(x, ls, Commit(t, Nil));
    ls := ls + [Commit(t, Nil)];
    assert Run(x, ls).committed == [Entry(Ticket(0, node), command, Nil), Entry(t, command, Nil)];
    assert Run(x, ls).committed[1].ticket == t;
    RunSnoc(x, ls, FinishLocal(0, Applied(Nil), FIRST_CID));
    ls := ls + [FinishLocal(0, Applied(Nil), FIRST_CID)];
    TwoCopies(Entry(Ticket(0, node), command, Nil), Entry(t, command, Nil), Run(x, ls).attempts, 0);
  }

  /** One attempt is enough: its broadcast is handled by two nodes, one of which leads
      after the other. */
  lemma OneAttemptMayCommitTwice(nodes: set<Node>, node: Node, a: Node, b: Node, command: Command)
    returns (ls: seq<Label>)
    requires {node, a, b} <= nodes && node != a && node != b && a != b
    ensures CanRun(Initial(nodes), ls)
    ensures var x := Run(Initial(nodes), ls);
            && x.attempts == [Proposal(0, node, command)] && Tries(x.attempts, 0) == 1
            && x.committed == [Entry(Ticket(0, a), command, Nil), Entry(Ticket(0, b), command, Nil)]
            && Copies(x.committed, x.attempts, 0) == 2
  {
    var x := Initial(nodes);
    ls := ProposeAndTry(nodes, node, command);
    var refused := FinishLocal(0, Failed(NOT_LEADER), FIRST_CID);
    RunSnoc(x, ls, refused);
    ls := ls + [refused];
    RunSnoc(x, ls, Handle(Handling(FIRST_CID, a)));
    ls := ls + [Handle(Handling(FIRST_CID, a))];
    RunSnoc(x, ls, Handle(Handling(FIRST_CID, b)));
    ls := ls + [Handle(Handling(FIRST_CID, b))];
    var ta, tb := Ticket(0, a), Ticket(0, b);
    RunSnoc(x, ls, Commit(ta, Nil));
    ls := ls + [Commit(ta, Nil)];
    RunSnoc(x, ls, Commit(tb, Nil));
    ls := ls + [Commit(tb, Nil)];
    assert Run(x, ls).committed == [Entry(ta, command, Nil), Entry(tb, command, Nil)];
    assert [Proposal(0, node, command)][..0] == [];
    TwoCopies(Entry(ta, command, Nil), Entry(tb, command, Nil), Run(x, ls).attempts, 0);
  }
}
