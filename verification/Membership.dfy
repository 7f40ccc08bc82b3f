/**
 Membership change observers of the Raft store: the set of known member ids and
 the fan-out of Joined/Left changes to every registered observer channel.

 A channel is modelled by the unbounded log of what was sent on it, so a send
 never waits for its receiver.
 */
module Membership {
  import opened Streams
  import opened Wrappers

  type MemberId = string

  datatype Change = Change(id: MemberId, joined: bool)

  /** The fields of the store that its mutex protects, and what each channel got. */
  datatype State = State(
    observers: map<nat, Chan>,
    nextObserverId: nat,
    memberIds: set<MemberId>,
    sent: map<Chan, seq<Change>>)

  // ------------------------------------------------------- reading a stream

  function Step(members: set<MemberId>, c: Change): set<MemberId> {
    if c.joined then members + {c.id} else members - {c.id}
  }

  /** The member set a receiver holds after the changes, starting from members. */
  function Fold(members: set<MemberId>, changes: seq<Change>): set<MemberId>
    decreases |changes|
  {
    if changes == [] then members else Fold(Step(members, changes[0]), changes[1..])
  }

  /** Every change is news: nobody joins who is in, nobody leaves who is out. */
  predicate Alternating(members: set<MemberId>, changes: seq<Change>)
    decreases |changes|
  {
    changes != [] ==>
      && (changes[0].joined <==> changes[0].id !in members)
      && Alternating(Step(members, changes[0]), changes[1..])
  }

  lemma {:induction false} FoldConcat(m: set<MemberId>, a: seq<Change>, b: seq<Change>)
    ensures Fold(m, a + b) == Fold(Fold(m, a), b)
    ensures Alternating(m, a + b) <==> Alternating(m, a) && Alternating(Fold(m, a), b)
    decreases |a|
  {
    if a == [] {
      assert a + b == b;
    } else {
      FoldConcat(Step(m, a[0]), a[1..], b);
      assert (a + b)[1..] == a[1..] + b;
    }
  }

  // ------------------------------------------------------- what one call sends

  function Changes(ids: seq<MemberId>, joined: bool): (cs: seq<Change>)
    ensures |cs| == |ids|
  {
    seq(|ids|, i requires 0 <= i < |ids| => Change(ids[i], joined))
  }

  function Ids(ids: seq<MemberId>): set<MemberId> {
    set id | id in ids
  }

  /** The servers not yet known, each once, in the order they are listed. */
  function NewMembers(servers: seq<MemberId>, known: set<MemberId>): seq<MemberId> {
    if servers == [] then []
    else if servers[0] in known then NewMembers(servers[1..], known)
    else [servers[0]] + NewMembers(servers[1..], known + {servers[0]})
  }

  lemma {:induction false} NewMembersJoin(servers: seq<MemberId>, known: set<MemberId>)
    ensures Fold(known, Changes(NewMembers(servers, known), true)) == known + Ids(servers)
    ensures Alternating(known, Changes(NewMembers(servers, known), true))
  {
    if servers == [] {
    } else {
      assert Ids(servers) == {servers[0]} + Ids(servers[1..]) by {
        assert servers == [servers[0]] + servers[1..];
      }
      if servers[0] in known {
        NewMembersJoin(servers[1..], known);
      } else {
        var rest := NewMembers(servers[1..], known + {servers[0]});
        NewMembersJoin(servers[1..], known + {servers[0]});
        assert Changes([servers[0]] + rest, true)[1..] == Changes(rest, true);
      }
    }
  }

  lemma {:induction false} NewMembersSnoc(servers: seq<MemberId>, id: MemberId, known: set<MemberId>)
    ensures NewMembers(servers + [id], known)
            == NewMembers(servers, known) + if id in known + Ids(servers) then [] else [id]
  {
    if servers == [] {
      assert NewMembers([id][1..], known + {id}) == [];
    } else {
      assert (servers + [id])[1..] == servers[1..] + [id];
      assert Ids(servers) == {servers[0]} + Ids(servers[1..]) by {
        assert servers == [servers[0]] + servers[1..];
      }
      if servers[0] in known {
        NewMembersSnoc(servers[1..], id, known);
        assert known + Ids(servers) == known + Ids(servers[1..]);
      } else {
        NewMembersSnoc(servers[1..], id, known + {servers[0]});
        assert known + Ids(servers) == known + {servers[0]} + Ids(servers[1..]);
      }
    }
  }

  lemma IdsSnoc(ids: seq<MemberId>, id: MemberId)
    ensures Ids(ids + [id]) == Ids(ids) + {id}
    ensures Distinct(ids) && id !in ids ==> Distinct(ids + [id])
    ensures forall joined :: Changes(ids + [id], joined) == Changes(ids, joined) + [Change(id, joined)]
  {
    assert (ids + [id])[|ids|] == id;
  }

  lemma {:induction false} LeaversLeave(leavers: seq<MemberId>, members: set<MemberId>)
    requires Distinct(leavers) && Ids(leavers) <= members
    ensures Fold(members, Changes(leavers, false)) == members - Ids(leavers)
    ensures Alternating(members, Changes(leavers, false))
  {
    if leavers != [] {
      var l, rest := leavers[0], leavers[1..];
      assert Ids(leavers) == {l} + Ids(rest) by {
        assert leavers == [l] + rest;
      }
      LeaversLeave(rest, members - {l});
      assert Changes(leavers, false)[1..] == Changes(rest, false);
    }
  }

  /** The changes that turn the known members into the given servers. */
  function Delta(leavers: seq<MemberId>, servers: seq<MemberId>, members: set<MemberId>): seq<Change> {
    Changes(leavers, false)
    + Changes(NewMembers(servers, members * Ids(servers)), true)
  }

  /** The members of a set, each once, in some order: a Go map traversal. */
  predicate Enumerates(ids: seq<MemberId>, members: set<MemberId>) {
    Distinct(ids) && Ids(ids) == members
  }

  lemma DeltaReachesServers(leavers: seq<MemberId>, servers: seq<MemberId>, members: set<MemberId>)
    requires Enumerates(leavers, members - Ids(servers))
    ensures Fold(members, Delta(leavers, servers, members)) == Ids(servers)
    ensures Alternating(members, Delta(leavers, servers, members))
  {
    LeaversLeave(leavers, members);
    assert members - Ids(leavers) == members * Ids(servers);
    NewMembersJoin(servers, members * Ids(servers));
    FoldConcat(members, Changes(leavers, false),
               Changes(NewMembers(servers, members * Ids(servers)), true));
  }

  /** Taking one more server into account: nothing if known or listed before,
      else one Joined for everybody. */
  lemma AdmitNext(sent: map<Chan, seq<Change>>, to: set<Chan>, servers: seq<MemberId>, i: nat, known: set<MemberId>)
    requires i < |servers|
    ensures Ids(servers[..i + 1]) == Ids(servers[..i]) + {servers[i]}
    ensures
      var before := Broadcast(sent, to, Changes(NewMembers(servers[..i], known), true));
      var after := Broadcast(sent, to, Changes(NewMembers(servers[..i + 1], known), true));
      if servers[i] in known + Ids(servers[..i]) then after == before
      else after == Broadcast(before, to, [Change(servers[i], true)])
  {
    var id, joiners := servers[i], NewMembers(servers[..i], known);
    NewMembersSnoc(servers[..i], id, known);
    IdsSnoc(servers[..i], id);
    assert servers[..i + 1] == servers[..i] + [id] && joiners + [] == joiners;
    IdsSnoc(joiners, id);
    BroadcastTwice(sent, to, Changes(joiners, true), [Change(id, true)]);
  }

  // ------------------------------------------------------- the four operations

  /** A new channel, for which nothing is registered yet. */
  function Added(s: State, c: Chan): State {
    s.(nextObserverId := s.nextObserverId + 1, sent := s.sent[c := []])
  }

  function Removed(s: State, id: nat): State {
    var observers := s.observers - {id};
    s.(observers := observers, memberIds := if observers == map[] then {} else s.memberIds)
  }

  /** Initialisation of channel c: the first observer reads the given Raft
      configuration (None if it cannot be retrieved), a late one the known
      members, in some order. */
  ghost predicate Initialised(s: State, c: Chan, configuration: Option<seq<MemberId>>, t: State)
    requires c in s.sent
  {
    if s.observers == map[] && configuration.None? then t == s
    else
      && t.nextObserverId == s.nextObserverId
      && t.observers == s.observers[s.nextObserverId := c]
      && if s.observers == map[] then
           && t.memberIds == s.memberIds + Ids(configuration.value)
           && t.sent == s.sent[c := s.sent[c] + Changes(NewMembers(configuration.value, s.memberIds), true)]
         else
           && t.memberIds == s.memberIds
           && exists joiners ::
                && Enumerates(joiners, s.memberIds)
                && t.sent == s.sent[c := s.sent[c] + Changes(joiners, true)]
  }

  ghost predicate ServersChanged(s: State, servers: seq<MemberId>, t: State) {
    if s.observers == map[] then t == s
    else
      && t.observers == s.observers
      && t.nextObserverId == s.nextObserverId
      && t.memberIds == Ids(servers)
      && exists leavers ::
           && Enumerates(leavers, s.memberIds - Ids(servers))
           && t.sent == Broadcast(s.sent, s.observers.Values, Delta(leavers, servers, s.memberIds))
  }

  // ------------------------------------------------------- the store's methods

  class MembershipObservers {
    var observers: map<nat, Chan>
    var nextObserverId: nat
    var memberIds: set<MemberId>
    var sent: map<Chan, seq<Change>>

    ghost function Abs(): State
      reads this
    {
      State(observers, nextObserverId, memberIds, sent)
    }

    ghost predicate WellFormed()
      reads this
    {
      && observers.Values <= sent.Keys
      && Injective(observers)
    }

    /** Every registered observer has been told exactly the current members. */
    ghost predicate Valid()
      reads this
    {
      WellFormed() && ObserversUpToDate(Abs())
    }

    constructor ()
      ensures Valid() && Abs() == State(map[], 0, {}, map[])
    {
      observers, nextObserverId, memberIds, sent := map[], 0, {}, map[];
    }

    /** AddMembershipChangeObserver: the initialisation of the new channel runs later. */
    method Add(c: Chan) returns (id: nat)
      requires Valid() && c !in sent
      modifies this`nextObserverId, this`sent
      ensures Valid() && Abs() == Added(old(Abs()), c) && id == nextObserverId
      ensures id == old(nextObserverId) + 1 && sent == old(sent)[c := []]
    {
      nextObserverId := nextObserverId + 1;
      sent := sent[c := []];
      id := nextObserverId;
      assert forall i :: i in observers ==> observers[i] in old(sent) && sent[observers[i]] == old(sent[observers[i]]);
    }

    method Remove(id: nat)
      requires Valid()
      modifies this`observers, this`memberIds
      ensures Valid() && Abs() == Removed(old(Abs()), id)
      ensures observers == old(observers) - {id}
      ensures memberIds == if observers == map[] then {} else old(memberIds)
    {
      observers := observers - {id};
      if |observers| == 0 {
        memberIds := {};
      }
    }

    /** First observer: announce the servers of the Raft configuration and remember them. */
    method AnnounceConfiguration(c: Chan, servers: seq<MemberId>)
      requires c in sent
      modifies this`memberIds, this`sent
      ensures memberIds == old(memberIds) + Ids(servers)
      ensures sent == old(sent)[c := old(sent)[c] + Changes(NewMembers(servers, old(memberIds)), true)]
    {
      ghost var known, stream := memberIds, sent[c];
      var i := 0;
      assert stream + Changes(NewMembers(servers[..0], known), true) == stream;
      while i < |servers|
        invariant 0 <= i <= |servers|
        invariant memberIds == known + Ids(servers[..i])
        invariant sent == old(sent)[c := stream + Changes(NewMembers(servers[..i], known), true)]
      {
        var id := servers[i];
        ghost var joiners := NewMembers(servers[..i], known);
        NewMembersSnoc(servers[..i], id, known);
        assert servers[..i + 1] == servers[..i] + [id] && joiners + [] == joiners;
        if id !in memberIds {
          memberIds := memberIds + {id};
          sent := sent[c := sent[c] + [Change(id, true)]];
          IdsSnoc(joiners, id);
          assert stream + Changes(joiners, true) + [Change(id, true)] == stream + Changes(joiners + [id], true);
        }
        i := i + 1;
      }
      assert servers[..i] == servers;
    }

    /** Late observer: announce the members already known. */
    method AnnounceMembers(c: Chan) returns (ghost joiners: seq<MemberId>)
      requires c in sent
      modifies this`sent
      ensures Enumerates(joiners, memberIds)
      ensures sent == old(sent)[c := old(sent)[c] + Changes(joiners, true)]
    {
      joiners := [];
      ghost var stream := sent[c];
      var rest := memberIds;
      assert stream + Changes(joiners, true) == stream;
      while rest != {}
        invariant rest <= memberIds && Distinct(joiners) && Ids(joiners) == memberIds - rest
        invariant sent == old(sent)[c := stream + Changes(joiners, true)]
        decreases rest
      {
        var id :| id in rest;
        rest := rest - {id};
        sent := sent[c := sent[c] + [Change(id, true)]];
        IdsSnoc(joiners, id);
        assert stream + Changes(joiners, true) + [Change(id, true)] == stream + Changes(joiners + [id], true);
        joiners := joiners + [id];
      }
    }

    /** sendMembershipChangesForObserver */
    method Initialise(c: Chan, configuration: Option<seq<MemberId>>)
      requires Valid() && c in sent && sent[c] == [] && c !in observers.Values
      modifies this
      ensures Valid() && Initialised(old(Abs()), c, configuration, Abs())
      ensures if old(observers) == map[] && configuration.None? then Abs() == old(Abs())
              else observers == old(observers)[nextObserverId := c] && nextObserverId == old(nextObserverId)
      ensures forall d :: d in old(sent) && d != c ==> d in sent && sent[d] == old(sent)[d]
    {
      ghost var joiners: seq<MemberId>;
      if |observers| == 0 {
        if configuration.None? {
          return;
        }
        joiners := NewMembers(configuration.value, memberIds);
        AnnounceConfiguration(c, configuration.value);
      } else {
        joiners := AnnounceMembers(c);
      }
      observers := observers[nextObserverId := c];
      RegisteredIsInitialised(old(Abs()), c, configuration, joiners, Abs());
    }

    method Emit(change: Change)
      requires WellFormed()
      modifies this`sent
      ensures WellFormed() && sent == Broadcast(old(sent), observers.Values, [change])
    {
      var rest := observers.Keys;
      ghost var done: set<Chan> := {};
      BroadcastToNobody(sent, [change]);
      while rest != {}
        invariant rest <= observers.Keys
        invariant done == set k | k in observers && k !in rest :: observers[k]
        invariant sent == Broadcast(old(sent), done, [change])
        decreases rest
      {
        var k :| k in rest;
        rest := rest - {k};
        BroadcastOneMore(old(sent), done, observers[k], [change]);
        sent := sent[observers[k] := sent[observers[k]] + [change]];
        done := done + {observers[k]};
      }
      assert done == observers.Values;
    }

    /** First half of sendMembershipChangesForServers: members not among the servers leave. */
    method DismissLeavers(servers: seq<MemberId>) returns (ghost leavers: seq<MemberId>)
      requires WellFormed()
      modifies this`memberIds, this`sent
      ensures Enumerates(leavers, old(memberIds) - Ids(servers))
      ensures memberIds == old(memberIds) * Ids(servers)
      ensures WellFormed() && sent == Broadcast(old(sent), observers.Values, Changes(leavers, false))
    {
      leavers := [];
      var rest := memberIds;
      BroadcastNothing(sent, observers.Values);
      while rest != {}
        invariant rest <= old(memberIds) && Distinct(leavers)
        invariant Ids(leavers) == (old(memberIds) - rest) - Ids(servers)
        invariant memberIds == old(memberIds) - Ids(leavers)
        invariant WellFormed() && sent == Broadcast(old(sent), observers.Values, Changes(leavers, false))
        decreases rest
      {
        var id :| id in rest;
        rest := rest - {id};
        if id !in servers {
          memberIds := memberIds - {id};
          BroadcastTwice(old(sent), observers.Values, Changes(leavers, false), [Change(id, false)]);
          IdsSnoc(leavers, id);
          Emit(Change(id, false));
          leavers := leavers + [id];
        }
      }
    }

    /** Second half of sendMembershipChangesForServers: servers not yet members join. */
    method AdmitServers(servers: seq<MemberId>)
      requires WellFormed()
      modifies this`memberIds, this`sent
      ensures WellFormed()
      ensures memberIds == old(memberIds) + Ids(servers)
      ensures sent == Broadcast(old(sent), observers.Values, Changes(NewMembers(servers, old(memberIds)), true))
    {
      ghost var known, to := memberIds, observers.Values;
      var i := 0;
      BroadcastNothing(sent, to);
      assert servers[..0] == [] && Changes(NewMembers([], known), true) == [];
      while i < |servers|
        invariant 0 <= i <= |servers| && WellFormed()
        invariant memberIds == known + Ids(servers[..i])
        invariant sent == Broadcast(old(sent), to, Changes(NewMembers(servers[..i], known), true))
      {
        AdmitServer(servers, i, old(sent), known);
        i := i + 1;
      }
      assert servers[..i] == servers;
    }

    /** One round: servers[i], the ones before having been admitted. */
    method AdmitServer(servers: seq<MemberId>, i: nat, ghost start: map<Chan, seq<Change>>, ghost known: set<MemberId>)
      requires WellFormed() && i < |servers|
      requires memberIds == known + Ids(servers[..i])
      requires sent == Broadcast(start, observers.Values, Changes(NewMembers(servers[..i], known), true))
      modifies this`memberIds, this`sent
      ensures WellFormed() && memberIds == known + Ids(servers[..i + 1])
      ensures sent == Broadcast(start, observers.Values, Changes(NewMembers(servers[..i + 1], known), true))
    {
      AdmitNext(start, observers.Values, servers, i, known);
      Admit(servers[i]);
    }

    method Admit(id: MemberId)
      requires WellFormed()
      modifies this`memberIds, this`sent
      ensures WellFormed()
      ensures memberIds == old(memberIds) + {id}
      ensures sent == if id in old(memberIds) then old(sent)
                      else Broadcast(old(sent), observers.Values, [Change(id, true)])
    {
      if id !in memberIds { // dedupe member ids
        memberIds := memberIds + {id};
        Emit(Change(id, true));
      }
    }

    /** sendMembershipChangesForServers */
    method ChangeServers(servers: seq<MemberId>)
      requires Valid()
      modifies this`memberIds, this`sent
      ensures Valid() && ServersChanged(old(Abs()), servers, Abs())
      ensures observers == map[] ==> Abs() == old(Abs())
      ensures observers != map[] ==> forall id :: id in memberIds <==> id in servers
      ensures forall d :: d in old(sent) && d !in observers.Values ==> d in sent && sent[d] == old(sent)[d]
    {
      if |observers| == 0 {
        return;
      }
      ghost var leavers := DismissLeavers(servers);
      ghost var joins := Changes(NewMembers(servers, memberIds), true);
      AdmitServers(servers);
      BroadcastTwice(old(sent), observers.Values, Changes(leavers, false), joins);
      ServersChangedTellsMembers(old(Abs()), servers, Abs());
    }
  }

  lemma RegisteredIsInitialised(s: State, c: Chan, configuration: Option<seq<MemberId>>, joiners: seq<MemberId>,
                                t: State)
    requires ObserversUpToDate(s) && Injective(s.observers) && s.observers.Values <= s.sent.Keys
    requires c in s.sent && s.sent[c] == [] && c !in s.observers.Values
    requires t.observers == s.observers[s.nextObserverId := c] && t.nextObserverId == s.nextObserverId
    requires t.sent == s.sent[c := s.sent[c] + Changes(joiners, true)]
    requires if |s.observers| == 0 then
               && configuration.Some? && joiners == NewMembers(configuration.value, s.memberIds)
               && t.memberIds == s.memberIds + Ids(configuration.value)
             else Enumerates(joiners, s.memberIds) && t.memberIds == s.memberIds
    ensures Initialised(s, c, configuration, t)
    ensures ObserversUpToDate(t) && Injective(t.observers) && t.observers.Values <= t.sent.Keys
  {
    assert s.observers == map[] <==> |s.observers| == 0;
    assert t.observers.Values <= s.observers.Values + {c};
    InitialisationTellsMembers(s, c, configuration, t);
  }

  // ------------------------------------------------------- runs

  /** A store together with the calls still owed to it: pending holds the channels
      whose initialisation has been started and not yet run; live holds those
      initialised and not yet removed; closed those that their owner has closed, which it
      does once it has removed them; returned is the id Add gave for a channel. */
  datatype System = System(
    store: State,
    returned: map<Chan, nat>,
    pending: set<Chan>,
    removed: set<Chan>,
    closed: set<Chan>,
    live: set<Chan>)

  datatype Label =
    | AddObserver(c: Chan)
    | RunInitialisation(c: Chan, configuration: Option<seq<MemberId>>)
    | RemoveObserver(c: Chan)
    | CloseChannel(c: Chan)
    | StoreConfiguration(servers: seq<MemberId>)

  const INITIAL := System(State(map[], 0, {}, map[]), map[], {}, {}, {}, {})

  /** Whether this initialisation registers its channel at all. */
  predicate Registers(x: System, configuration: Option<seq<MemberId>>) {
    x.store.observers != map[] || configuration.Some?
  }

  /** One call, with the mutex held. Each observation opens a channel of its own. */
  ghost predicate Next(x: System, l: Label, y: System) {
    match l
    case AddObserver(c) =>
      && c !in x.store.sent
      && y == x.(store := Added(x.store, c),
                 returned := x.returned[c := x.store.nextObserverId + 1],
                 pending := x.pending + {c})
    case RunInitialisation(c, configuration) =>
      && c in x.pending && c in x.store.sent
      && Initialised(x.store, c, configuration, y.store)
      && y == x.(store := y.store, pending := x.pending - {c},
                 live := if Registers(x, configuration) && c !in x.removed then x.live + {c} else x.live)
    case RemoveObserver(c) =>
      && c in x.returned && c !in x.removed
      && y == x.(store := Removed(x.store, x.returned[c]), removed := x.removed + {c}, live := x.live - {c})
    case CloseChannel(c) =>
      && c in x.removed
      && y == x.(closed := x.closed + {c})
    case StoreConfiguration(servers) =>
      && ServersChanged(x.store, servers, y.store)
      && y == x.(store := y.store)
  }

  ghost predicate StepAt(xs: seq<System>, ls: seq<Label>, i: nat)
    requires i < |ls| < |xs|
  {
    Next(xs[i], ls[i], xs[i + 1])
  }

  ghost predicate IsRun(xs: seq<System>, ls: seq<Label>) {
    && |xs| == |ls| + 1
    && xs[0] == INITIAL
    && forall i :: 0 <= i < |ls| ==> StepAt(xs, ls, i)
  }

  /** What every registered observer has been told is exactly who is known. */
  ghost predicate ObserversUpToDate(s: State) {
    && (s.observers == map[] ==> s.memberIds == {})
    && forall id :: id in s.observers ==>
         && s.observers[id] in s.sent
         && Fold({}, s.sent[s.observers[id]]) == s.memberIds
         && Alternating({}, s.sent[s.observers[id]])
  }

  ghost predicate Inv(x: System) {
    && ObserversUpToDate(x.store)
    && Injective(x.store.observers)
    && x.returned.Keys == x.store.sent.Keys
    && x.pending <= x.returned.Keys
    && x.live <= x.returned.Keys
    && x.live !! x.pending && x.live !! x.removed
    && x.closed <= x.removed
    && (forall c :: c in x.pending ==> x.store.sent[c] == [] && c !in x.store.observers.Values)
    && (forall c :: c in x.returned ==> x.returned[c] <= x.store.nextObserverId)
    && Injective(x.returned)
  }

  lemma NextKeepsInv(x: System, l: Label, y: System)
    requires Inv(x) && Next(x, l, y)
    ensures Inv(y)
  {
    match l
    case AddObserver(c) =>
      assert forall id :: id in y.store.observers ==> x.store.observers[id] in x.store.sent;
    case RunInitialisation(c, configuration) =>
      InitialisationKeepsInv(x, c, configuration, y);
    case RemoveObserver(c) =>
      assert forall id :: id in y.store.observers ==>
        id in x.store.observers && y.store.observers[id] == x.store.observers[id];
    case CloseChannel(_) =>
    case StoreConfiguration(servers) =>
      ServersChangedTellsMembers(x.store, servers, y.store);
  }

  lemma ServersChangedTellsMembers(s: State, servers: seq<MemberId>, t: State)
    requires ObserversUpToDate(s) && ServersChanged(s, servers, t)
    ensures ObserversUpToDate(t) && t.sent.Keys == s.sent.Keys
    ensures forall c :: c in s.sent && c !in s.observers.Values ==> t.sent[c] == s.sent[c]
    ensures s.observers != map[] ==> t.memberIds == Ids(servers)
  {
    if s.observers != map[] {
      var leavers :| Enumerates(leavers, s.memberIds - Ids(servers))
                     && t.sent == Broadcast(s.sent, s.observers.Values, Delta(leavers, servers, s.memberIds));
      DeltaReachesServers(leavers, servers, s.memberIds);
      forall id | id in t.observers
        ensures && t.observers[id] in t.sent
                && Fold({}, t.sent[t.observers[id]]) == t.memberIds
                && Alternating({}, t.sent[t.observers[id]])
      {
        FoldConcat({}, s.sent[s.observers[id]], Delta(leavers, servers, s.memberIds));
      }
    }
  }

  lemma InitialisationKeepsInv(x: System, c: Chan, configuration: Option<seq<MemberId>>, y: System)
    requires Inv(x) && Next(x, RunInitialisation(c, configuration), y)
    ensures Inv(y)
  {
    if Registers(x, configuration) {
      InitialisationTellsMembers(x.store, c, configuration, y.store);
      assert y.store.observers.Values <= x.store.observers.Values + {c};
    }
  }

  lemma InitialisationTellsMembers(s: State, c: Chan, configuration: Option<seq<MemberId>>, t: State)
    requires ObserversUpToDate(s) && c in s.sent && s.sent[c] == []
    requires c !in s.observers.Values
    requires s.observers != map[] || configuration.Some?
    requires Initialised(s, c, configuration, t)
    ensures ObserversUpToDate(t)
  {
    assert s.nextObserverId in t.observers;
    if s.observers == map[] {
      NewMembersJoin(configuration.value, {});
      assert t.sent[c] == Changes(NewMembers(configuration.value, {}), true);
    } else {
      var joiners :| Enumerates(joiners, s.memberIds)
                     && t.sent == s.sent[c := s.sent[c] + Changes(joiners, true)];
      DistinctJoin(joiners, {});
      assert t.sent[c] == Changes(joiners, true);
    }
  }

  lemma {:induction false} DistinctJoin(joiners: seq<MemberId>, members: set<MemberId>)
    requires Distinct(joiners) && Ids(joiners) !! members
    ensures Fold(members, Changes(joiners, true)) == members + Ids(joiners)
    ensures Alternating(members, Changes(joiners, true))
    decreases |joiners|
  {
    if joiners != [] {
      assert Ids(joiners) == {joiners[0]} + Ids(joiners[1..]) by {
        assert joiners == [joiners[0]] + joiners[1..];
      }
      assert joiners[0] in Ids(joiners);
      DistinctJoin(joiners[1..], members + {joiners[0]});
      assert Changes(joiners, true)[1..] == Changes(joiners[1..], true);
    }
  }

  lemma {:induction false} RunKeepsInv(xs: seq<System>, ls: seq<Label>, n: nat)
    requires IsRun(xs, ls) && n < |xs|
    ensures Inv(xs[n])
  {
    if n > 0 {
      RunKeepsInv(xs, ls, n - 1);
      assert StepAt(xs, ls, n - 1);
      NextKeepsInv(xs[n - 1], ls[n - 1], xs[n]);
    }
  }

  /** In every state of every run, whatever the interleaving of Add, the deferred
      initialisations, Remove and configuration entries: without observers no
      member is remembered, and every registered observer has been told exactly
      the current members, each Joined and Left being news to it. */
  lemma EveryRunKeepsObserversUpToDate(xs: seq<System>, ls: seq<Label>)
    requires IsRun(xs, ls)
    ensures forall n :: 0 <= n < |xs| ==> ObserversUpToDate(xs[n].store)
  {
    forall n | 0 <= n < |xs|
      ensures ObserversUpToDate(xs[n].store)
    {
      RunKeepsInv(xs, ls, n);
    }
  }

  /** After a configuration entry every registered observer holds exactly the
      deduplicated servers of that entry. */
  lemma ConfigurationReachesObservers(xs: seq<System>, ls: seq<Label>, n: nat, id: nat)
    requires IsRun(xs, ls) && n < |ls| && ls[n].StoreConfiguration?
    requires id in xs[n + 1].store.observers
    ensures xs[n + 1].store.observers[id] in xs[n + 1].store.sent
    ensures Fold({}, xs[n + 1].store.sent[xs[n + 1].store.observers[id]]) == Ids(ls[n].servers)
  {
    RunKeepsInv(xs, ls, n + 1);
    RunKeepsInv(xs, ls, n);
    assert StepAt(xs, ls, n);
  }

  // ------------------------------------------------------- closed channels

  /** The step sends something on a channel that its owner has closed: a panic. */
  predicate SendsOnClosed(x: System, y: System) {
    exists c :: c in x.closed && c in x.store.sent && c in y.store.sent && y.store.sent[c] != x.store.sent[c]
  }

  predicate SendsOnClosedAt(xs: seq<System>, i: nat)
    requires i + 1 < |xs|
  {
    SendsOnClosed(xs[i], xs[i + 1])
  }

  /** A late initialisation that has somebody to announce, or a change of the members
      while a closed channel is registered. */
  predicate ReachesClosed(x: System, l: Label) {
    match l
    case RunInitialisation(c, configuration) =>
      c in x.closed
      && if x.store.observers == map[] then configuration.Some? && configuration.value != []
         else x.store.memberIds != {}
    case StoreConfiguration(servers) =>
      && (exists id :: id in x.store.observers && x.store.observers[id] in x.closed)
      && Ids(servers) != x.store.memberIds
    case _ => false
  }

  lemma {:induction false} NobodyIsNew(servers: seq<MemberId>, known: set<MemberId>)
    requires Ids(servers) <= known
    ensures NewMembers(servers, known) == []
  {
    if servers != [] {
      assert servers[0] in Ids(servers) && forall id :: id in servers[1..] ==> id in servers;
      NobodyIsNew(servers[1..], known);
    }
  }

  lemma EnumerationIsEmpty(ids: seq<MemberId>, members: set<MemberId>)
    requires Enumerates(ids, members)
    ensures ids == [] <==> members == {}
  {
    if ids != [] {
      assert ids[0] in Ids(ids);
    }
  }

  /** There is something to send exactly when the members change. */
  lemma DeltaIsEmpty(leavers: seq<MemberId>, servers: seq<MemberId>, members: set<MemberId>)
    requires Enumerates(leavers, members - Ids(servers))
    ensures Delta(leavers, servers, members) == [] <==> members == Ids(servers)
  {
    DeltaReachesServers(leavers, servers, members);
    EnumerationIsEmpty(leavers, members - Ids(servers));
    if members == Ids(servers) {
      NobodyIsNew(servers, members * Ids(servers));
    }
  }

  lemma InitialisationSendsOnClosed(x: System, c: Chan, configuration: Option<seq<MemberId>>, y: System)
    requires Inv(x) && Next(x, RunInitialisation(c, configuration), y)
    ensures SendsOnClosed(x, y) <==> ReachesClosed(x, RunInitialisation(c, configuration))
  {
    if x.store.observers != map[] {
      var joiners :| Enumerates(joiners, x.store.memberIds)
                     && y.store.sent == x.store.sent[c := x.store.sent[c] + Changes(joiners, true)];
      EnumerationIsEmpty(joiners, x.store.memberIds);
      assert |y.store.sent[c]| == |x.store.sent[c]| + |joiners|;
    } else if configuration.Some? {
      var joiners := NewMembers(configuration.value, {});
      NewMembersJoin(configuration.value, {});
      assert joiners == [] <==> configuration.value == [];
      assert |y.store.sent[c]| == |x.store.sent[c]| + |joiners|;
    }
  }

  lemma ChangeSendsOnClosed(x: System, servers: seq<MemberId>, y: System)
    requires Inv(x) && Next(x, StoreConfiguration(servers), y)
    ensures SendsOnClosed(x, y) <==> ReachesClosed(x, StoreConfiguration(servers))
  {
    if x.store.observers != map[] {
      var leavers :| Enumerates(leavers, x.store.memberIds - Ids(servers))
                     && y.store.sent == Broadcast(x.store.sent, x.store.observers.Values,
                                                  Delta(leavers, servers, x.store.memberIds));
      var delta := Delta(leavers, servers, x.store.memberIds);
      DeltaIsEmpty(leavers, servers, x.store.memberIds);
      forall c | c in x.store.sent
        ensures y.store.sent[c] != x.store.sent[c] <==> c in x.store.observers.Values && delta != []
      {
        assert |x.store.sent[c] + delta| == |x.store.sent[c]| + |delta|;
      }
      if id :| id in x.store.observers && x.store.observers[id] in x.closed {
        assert x.store.observers[id] in x.store.observers.Values;
      }
    }
  }

  lemma SendsOnClosedExactly(x: System, l: Label, y: System)
    requires Inv(x) && Next(x, l, y)
    ensures SendsOnClosed(x, y) <==> ReachesClosed(x, l)
  {
    match l
    case RunInitialisation(c, configuration) => InitialisationSendsOnClosed(x, c, configuration, y);
    case StoreConfiguration(servers) => ChangeSendsOnClosed(x, servers, y);
    case _ =>
  }

  /** No step of a run sends on a closed channel if and only if no initialisation of a
      closed channel has anybody to announce, and the members never change while a
      closed channel is registered. */
  lemma RunNeverSendsOnClosedExactly(xs: seq<System>, ls: seq<Label>)
    requires IsRun(xs, ls)
    ensures (forall i :: 0 <= i < |ls| ==> !SendsOnClosedAt(xs, i))
            <==> forall i :: 0 <= i < |ls| ==> !ReachesClosed(xs[i], ls[i])
  {
    forall i | 0 <= i < |ls|
      ensures SendsOnClosedAt(xs, i) <==> ReachesClosed(xs[i], ls[i])
    {
      RunKeepsInv(xs, ls, i);
      assert StepAt(xs, ls, i);
      SendsOnClosedExactly(xs[i], ls[i], xs[i + 1]);
    }
  }

  // ---------------------------------------- registration under one's own id

  predicate AgreesAt(x: System, id: nat, c: Chan) {
    (id in x.store.observers && x.store.observers[id] == c)
    <==> (c in x.live && c in x.returned && x.returned[c] == id)
  }

  /** Every live observer, and nobody else, is registered under the id that Add
      returned for it, so that its own Remove takes it out again. */
  ghost predicate Agrees(x: System) {
    forall id: nat, c: Chan :: AgreesAt(x, id, c)
  }

  /** An initialisation is orderly if no other Add came after its own and its
      channel has not been removed meanwhile. */
  predicate Orderly(x: System, l: Label) {
    l.RunInitialisation? && Registers(x, l.configuration) && l.c in x.returned ==>
      x.returned[l.c] == x.store.nextObserverId && l.c !in x.removed
  }

  lemma AgreesExactlyWhenOrderly(x: System, l: Label, y: System)
    requires Inv(x) && Agrees(x) && Next(x, l, y)
    ensures Agrees(y) <==> Orderly(x, l)
  {
    if l.RunInitialisation? && Registers(x, l.configuration) {
      InitialisationAgreement(x, l.c, l.configuration, y);
    } else if l.RemoveObserver? {
      RemovalKeepsAgreement(x, l.c, y);
    } else {
      AgreementFrame(x, y);
    }
  }

  /** Whether registration agrees depends on three fields only. */
  lemma AgreementFrame(x: System, y: System)
    requires Agrees(x) && x.live <= x.returned.Keys
    requires x.store.observers == y.store.observers && x.live == y.live
    requires forall c :: c in x.live ==> c in y.returned && x.returned[c] == y.returned[c]
    ensures Agrees(y)
  {
    forall id: nat, c: Chan
      ensures AgreesAt(y, id, c)
    {
      assert AgreesAt(x, id, c);
    }
  }

  lemma RemovalKeepsAgreement(x: System, c: Chan, y: System)
    requires Inv(x) && Agrees(x) && Next(x, RemoveObserver(c), y)
    ensures Agrees(y)
  {
    var own := x.returned[c];
    assert y.store.observers == x.store.observers - {own};
    forall id: nat, d: Chan
      ensures AgreesAt(y, id, d)
    {
      assert AgreesAt(x, id, d);
      OwnIdIsUnique(x.returned, c, d);
    }
  }

  lemma OwnIdIsUnique(returned: map<Chan, nat>, c: Chan, d: Chan)
    requires Injective(returned) && c in returned
    ensures d in returned && returned[d] == returned[c] <==> d == c
  {
  }

  lemma InitialisationAgreement(x: System, c: Chan, configuration: Option<seq<MemberId>>, y: System)
    requires Inv(x) && Agrees(x) && Next(x, RunInitialisation(c, configuration), y)
    requires Registers(x, configuration)
    ensures Agrees(y) <==> Orderly(x, RunInitialisation(c, configuration))
  {
    var next := x.store.nextObserverId;
    assert y.store.observers == x.store.observers[next := c];
    if x.returned[c] == next && c !in x.removed {
      forall id: nat, d: Chan
        ensures AgreesAt(y, id, d)
      {
        assert AgreesAt(x, id, d);
      }
    } else {
      assert next in y.store.observers && y.store.observers[next] == c;
      assert !AgreesAt(y, next, c);
    }
  }

  /** Registration agrees with the returned ids throughout a run if and only if
      every initialisation of the run is orderly. */
  lemma {:induction false} RunAgreesExactlyWhenOrderly(xs: seq<System>, ls: seq<Label>, n: nat)
    requires IsRun(xs, ls) && n < |xs|
    ensures (forall i :: 0 <= i <= n ==> Agrees(xs[i])) <==> (forall i :: 0 <= i < n ==> Orderly(xs[i], ls[i]))
  {
    if n == 0 {
      assert Agrees(xs[0]);
    } else {
      RunAgreesExactlyWhenOrderly(xs, ls, n - 1);
      RunKeepsInv(xs, ls, n - 1);
      if forall i :: 0 <= i <= n - 1 ==> Agrees(xs[i]) {
        assert StepAt(xs, ls, n - 1);
        AgreesExactlyWhenOrderly(xs[n - 1], ls[n - 1], xs[n]);
      }
    }
  }

  /** So in a run of orderly initialisations every live observer has been told exactly
      the current members, in every state. */
  lemma OrderlyRunTellsEveryLiveObserver(xs: seq<System>, ls: seq<Label>, n: nat, c: Chan)
    requires IsRun(xs, ls) && n < |xs| && c in xs[n].live
    requires forall i :: 0 <= i < n ==> Orderly(xs[i], ls[i])
    ensures c in xs[n].store.sent && c in xs[n].returned
    ensures xs[n].returned[c] in xs[n].store.observers && xs[n].store.observers[xs[n].returned[c]] == c
    ensures Fold({}, xs[n].store.sent[c]) == xs[n].store.memberIds && Alternating({}, xs[n].store.sent[c])
  {
    RunAgreesExactlyWhenOrderly(xs, ls, n);
    RunKeepsInv(xs, ls, n);
    assert AgreesAt(xs[n], xs[n].returned[c], c);
  }

  /** Such a run never sends on a closed channel either. */
  lemma OrderlyRunNeverSendsOnClosed(xs: seq<System>, ls: seq<Label>, n: nat)
    requires IsRun(xs, ls) && n < |ls|
    requires forall i :: 0 <= i <= n ==> Orderly(xs[i], ls[i])
    ensures !SendsOnClosedAt(xs, n)
  {
    var x := xs[n];
    RunAgreesExactlyWhenOrderly(xs, ls, n);
    RunKeepsInv(xs, ls, n);
    assert StepAt(xs, ls, n);
    SendsOnClosedExactly(x, ls[n], xs[n + 1]);
    forall id | id in x.store.observers
      ensures x.store.observers[id] !in x.closed
    {
      assert AgreesAt(x, id, x.store.observers[id]);
    }
  }

  lemma RunSnoc(xs: seq<System>, ls: seq<Label>, l: Label, y: System)
    requires IsRun(xs, ls) && Next(xs[|ls|], l, y)
    ensures IsRun(xs + [y], ls + [l])
  {
    forall i | 0 <= i < |ls + [l]|
      ensures StepAt(xs + [y], ls + [l], i)
    {
      assert i < |ls| ==> StepAt(xs, ls, i);
    }
  }

  /** The first initialisation announces the only server of the configuration. */
  lemma FirstInitialisation(x: System, c: Chan, a: MemberId, y: System)
    requires x.store.observers == map[] && x.store.memberIds == {} && c in x.pending && c in x.store.sent
    requires x.store.sent[c] == [] && c in x.removed
    requires y == x.(store := State(map[x.store.nextObserverId := c], x.store.nextObserverId, {a},
                                    x.store.sent[c := [Change(a, true)]]), pending := x.pending - {c})
    ensures Next(x, RunInitialisation(c, Some([a])), y)
  {
    NewMembersSnoc([], a, {});
    IdsSnoc([], a);
    assert [] + [a] == [a] && NewMembers([], {}) + [a] == [a];
    assert Changes([a], true) == [Change(a, true)] && [] + [Change(a, true)] == [Change(a, true)];
    assert Ids([]) + {a} == {a} && x.store.memberIds + Ids([a]) == {a};
  }

  /** An observation that ends before its initialisation has run: the initialisation
      announces a member on a closed channel and registers it, so that the next
      configuration change is sent on the closed channel too. */
  lemma LateInitialisationSendsOnClosed(a: MemberId, b: MemberId) returns (xs: seq<System>, ls: seq<Label>)
    requires a != b
    ensures IsRun(xs, ls) && |ls| == 4 && SendsOnClosedAt(xs, 3)
    ensures forall y :: Next(xs[4], StoreConfiguration([a, b]), y) ==> SendsOnClosed(xs[4], y)
  {
    var x1 := System(State(map[], 1, {}, map[0 := []]), map[0 := 1], {0}, {}, {}, {});
    RunSnoc([INITIAL], [], AddObserver(0), x1);
    var x2 := x1.(removed := {0});
    assert Removed(x1.store, 1) == x1.store;
    RunSnoc([INITIAL, x1], [AddObserver(0)], RemoveObserver(0), x2);
    var x3 := x2.(closed := {0});
    xs, ls := [INITIAL, x1, x2], [AddObserver(0), RemoveObserver(0)];
    RunSnoc(xs, ls, CloseChannel(0), x3);
    var x4 := x3.(store := State(map[1 := 0], 1, {a}, map[0 := [Change(a, true)]]), pending := {});
    xs, ls := xs + [x3], ls + [CloseChannel(0)];
    assert x3.pending - {0} == {} && x3.store.sent[0 := [Change(a, true)]] == map[0 := [Change(a, true)]];
    FirstInitialisation(x3, 0, a, x4);
    RunSnoc(xs, ls, RunInitialisation(0, Some([a])), x4);
    xs, ls := xs + [x4], ls + [RunInitialisation(0, Some([a]))];
    assert 0 in x3.closed && x4.store.sent[0] != x3.store.sent[0];
    RunKeepsInv(xs, ls, 4);
    forall y | Next(x4, StoreConfiguration([a, b]), y)
      ensures SendsOnClosed(x4, y)
    {
      SendsOnClosedExactly(x4, StoreConfiguration([a, b]), y);
      assert x4.store.observers[1] in x4.closed;
      assert b in [a, b] && b in Ids([a, b]) && b !in x4.store.memberIds;
    }
  }

  /** A run in which two observers are added before the first is initialised, and
      a second member joins after both are. */
  function Overlap(a: MemberId, b: MemberId, n: nat): System {
    var returned := map[1 := 1, 2 := 2];
    var none, joinA, joinB := [], [Change(a, true)], [Change(b, true)];
    match n
    case 0 => INITIAL
    case 1 => System(State(map[], 1, {}, map[1 := none]), map[1 := 1], {1}, {}, {}, {})
    case 2 => System(State(map[], 2, {}, map[1 := none, 2 := none]), returned, {1, 2}, {}, {}, {})
    case 3 => System(State(map[2 := 1], 2, {a}, map[1 := joinA, 2 := none]), returned, {2}, {}, {}, {1})
    case 4 => System(State(map[2 := 2], 2, {a}, map[1 := joinA, 2 := joinA]), returned, {}, {}, {}, {1, 2})
    case _ => System(State(map[2 := 2], 2, {a, b}, map[1 := joinA, 2 := joinA + joinB]), returned, {}, {}, {}, {1, 2})
  }

  function OverlapLabel(a: MemberId, b: MemberId, n: nat): Label {
    match n
    case 0 => AddObserver(1)
    case 1 => AddObserver(2)
    case 2 => RunInitialisation(1, Some([a]))
    case 3 => RunInitialisation(2, None)
    case _ => StoreConfiguration([a, b])
  }

  lemma OverlapInitialisations(a: MemberId, b: MemberId, n: nat)
    requires 2 <= n <= 3
    ensures Next(Overlap(a, b, n), OverlapLabel(a, b, n), Overlap(a, b, n + 1))
  {
    var x, y := Overlap(a, b, n), Overlap(a, b, n + 1);
    assert Changes([a], true) == [Change(a, true)];
    assert x.store.sent[n - 1] + [Change(a, true)] == [Change(a, true)];
    if n == 2 {
      NewMembersSnoc([], a, {});
      assert [] + [a] == [a] && NewMembers([], {}) + [a] == [a];
    } else {
      assert Enumerates([a], {a});
      assert 2 in x.store.observers;
    }
    assert x.pending - {n - 1} == y.pending && x.live + {n - 1} == y.live;
  }

  lemma OverlapConfiguration(a: MemberId, b: MemberId)
    requires a != b
    ensures Next(Overlap(a, b, 4), OverlapLabel(a, b, 4), Overlap(a, b, 5))
  {
    var x, y := Overlap(a, b, 4), Overlap(a, b, 5);
    assert Ids([a, b]) == {a, b} by {
      assert [a, b][0] == a && [a, b][1] == b;
    }
    assert Enumerates([], {a} - Ids([a, b])) && {a} * Ids([a, b]) == {a};
    NewMembersSnoc([a], b, {a});
    assert [a] + [b] == [a, b] && NewMembers([a], {a}) == [];
    assert Delta([], [a, b], {a}) == [Change(b, true)];
    assert x.store.observers[2] == 2;
    assert x.store.observers.Values == {2};
    assert y.store.sent == Broadcast(x.store.sent, {2}, Delta([], [a, b], {a}));
  }

  /** Adds that overlap break that agreement for good: the second initialisation
      overwrites the first, and observer 1, still live, misses that b has joined. */
  lemma OverlappingAddsLoseAnObserver(a: MemberId, b: MemberId)
    requires a != b
    ensures IsRun(seq(6, (n: nat) => Overlap(a, b, n)), seq(5, (n: nat) => OverlapLabel(a, b, n)))
    ensures var last := Overlap(a, b, 5);
      1 in last.live && Fold({}, last.store.sent[1]) == {a} != last.store.memberIds
  {
    forall n | 0 <= n < 5
      ensures Next(Overlap(a, b, n), OverlapLabel(a, b, n), Overlap(a, b, n + 1))
    {
      if n >= 4 {
        OverlapConfiguration(a, b);
      } else if n >= 2 {
        OverlapInitialisations(a, b, n);
      }
    }
    assert [Change(a, true)][1..] == [];
    assert b in Overlap(a, b, 5).store.memberIds;
  }
}
