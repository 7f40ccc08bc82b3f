/**
 The members that observers are told of, against the configuration logs in the store:
 storing a configuration log moves the members at once, deleting one does not move
 them back. Somebody is observing throughout.
 */
module ConfigurationLog {
  import opened Bytes
  import opened RaftLogStore
  import M = Membership

  datatype State = State(logs: map<Uint64, Log>, members: set<M.MemberId>)

  /** One log of StoreLogs, written or failing to be written, or one call of DeleteRange. */
  datatype Operation = Write(log: Log) | Fail(log: Log) | Delete(min: Uint64, max: Uint64)

  function Servers(codec: Codec, log: Log): set<M.MemberId> {
    M.Ids(codec.servers(log.data))
  }

  function After(codec: Codec, x: State, op: Operation): State {
    match op
    case Write(log) => State(x.logs[log.index := log], MemberStep(codec, true, x.members, log))
    case Fail(log) => x.(members := MemberStep(codec, true, x.members, log))
    case Delete(min, max) => x.(logs := WithoutRange(x.logs, min, max))
  }

  /** The newest configuration in the log. */
  ghost predicate IsNewest(logs: map<Uint64, Log>, u: Uint64) {
    && u in logs && logs[u].kind.Configuration?
    && forall v :: v in logs && logs[v].kind.Configuration? ==> v <= u
  }

  /** The newest stored configuration, if there is one, has these servers. */
  ghost predicate NewestHas(codec: Codec, logs: map<Uint64, Log>, servers: set<M.MemberId>) {
    forall u {:trigger IsNewest(logs, u)} :: IsNewest(logs, u) ==> Servers(codec, logs[u]) == servers
  }

  /** The members are the servers of the newest stored configuration, if there is one. */
  ghost predicate Agrees(codec: Codec, x: State) {
    NewestHas(codec, x.logs, x.members)
  }

  /** Dropping all logs but the rest leaves a newest configuration with the same servers,
      if it leaves any. */
  ghost predicate Replaceable(codec: Codec, logs: map<Uint64, Log>, rest: map<Uint64, Log>) {
    forall n {:trigger IsNewest(logs, n)} ::
      IsNewest(logs, n) && n !in rest ==> NewestHas(codec, rest, Servers(codec, logs[n]))
  }

  /** What can be checked before an operation: a configuration is written above all
      others, and the newest one is neither overwritten nor deleted; or the servers are
      the same anyway. */
  ghost predicate Harmless(codec: Codec, x: State, op: Operation) {
    match op
    case Write(log) =>
      var others := x.logs - {log.index};
      if log.kind.Configuration? then
        forall u: Uint64 {:trigger IsNewest(others, u)} ::
          IsNewest(others, u) && u > log.index ==> Servers(codec, others[u]) == Servers(codec, log)
      else
        Replaceable(codec, x.logs, others)
    case Fail(log) =>
      log.kind.Configuration? ==> NewestHas(codec, x.logs, Servers(codec, log))
    case Delete(min, max) =>
      Replaceable(codec, x.logs, WithoutRange(x.logs, min, max))
  }

  lemma {:induction false} NewestExists(logs: map<Uint64, Log>, u: Uint64) returns (n: Uint64)
    requires u in logs && logs[u].kind.Configuration?
    ensures u <= n && IsNewest(logs, n)
    decreases TWO_TO_THE_64 - u
  {
    if v :| v in logs && logs[v].kind.Configuration? && v > u {
      n := NewestExists(logs, v);
    } else {
      n := u;
    }
  }

  /** Dropping what is not the newest configuration leaves the newest. */
  lemma NewestStays(logs: map<Uint64, Log>, rest: map<Uint64, Log>, n: Uint64)
    requires IsNewest(logs, n) && n in rest
    requires forall u :: u in rest ==> u in logs && rest[u] == logs[u]
    ensures forall u :: IsNewest(rest, u) <==> u == n
  {
  }

  lemma DroppingAgreesExactly(codec: Codec, x: State, rest: map<Uint64, Log>)
    requires Agrees(codec, x) && forall u :: u in rest ==> u in x.logs && rest[u] == x.logs[u]
    ensures NewestHas(codec, rest, x.members) <==> Replaceable(codec, x.logs, rest)
  {
    if n :| IsNewest(x.logs, n) {
      if n in rest {
        NewestStays(x.logs, rest, n);
      }
    } else if u :| IsNewest(rest, u) {
      var _ := NewestExists(x.logs, u);
    }
  }

  /** Where the newest configuration is after a write. */
  lemma NewestAfterWrite(logs: map<Uint64, Log>, log: Log, u: Uint64)
    ensures var others, written := logs - {log.index}, logs[log.index := log];
            IsNewest(written, u)
            <==> if !log.kind.Configuration? then IsNewest(others, u)
                 else if u == log.index then forall v: Uint64 :: IsNewest(others, v) ==> v < u
                 else IsNewest(others, u) && u > log.index
  {
    var others, written := logs - {log.index}, logs[log.index := log];
    assert log.index in written && written[log.index] == log;
    assert forall v :: v in written && v != log.index <==> v in others;
    assert forall v :: v in others ==> written[v] == others[v];
    if !log.kind.Configuration? {
      assert forall v ::
          v in written && written[v].kind.Configuration? <==> v in others && others[v].kind.Configuration?;
    } else if u == log.index && !IsNewest(written, u) {
      var v :| v in written && written[v].kind.Configuration? && v > u;
      var n := NewestExists(others, v);
    }
  }

  lemma WriteAgreesExactly(codec: Codec, x: State, log: Log)
    requires Agrees(codec, x)
    ensures Agrees(codec, After(codec, x, Write(log))) <==> Harmless(codec, x, Write(log))
  {
    var others, y := x.logs - {log.index}, After(codec, x, Write(log));
    forall u: Uint64
      ensures IsNewest(y.logs, u)
              <==> if !log.kind.Configuration? then IsNewest(others, u)
                   else if u == log.index then forall v: Uint64 :: IsNewest(others, v) ==> v < u
                   else IsNewest(others, u) && u > log.index
    {
      NewestAfterWrite(x.logs, log, u);
    }
    if !log.kind.Configuration? {
      DroppingAgreesExactly(codec, x, others);
    }
  }

  /** One operation on a store that agrees leaves it so exactly when it is harmless. */
  lemma AgreesExactlyWhenHarmless(codec: Codec, x: State, op: Operation)
    requires Agrees(codec, x)
    ensures Agrees(codec, After(codec, x, op)) <==> Harmless(codec, x, op)
  {
    match op
    case Write(log) => WriteAgreesExactly(codec, x, log);
    case Fail(_) =>
    case Delete(min, max) => DroppingAgreesExactly(codec, x, WithoutRange(x.logs, min, max));
  }

  /** The state after the first n operations. */
  function StateAt(codec: Codec, x: State, ops: seq<Operation>, n: nat): State
    requires n <= |ops|
    decreases n
  {
    if n == 0 then x else After(codec, StateAt(codec, x, ops, n - 1), ops[n - 1])
  }

  ghost predicate AgreesAt(codec: Codec, x: State, ops: seq<Operation>, i: nat)
    requires i <= |ops|
  {
    Agrees(codec, StateAt(codec, x, ops, i))
  }

  ghost predicate HarmlessAt(codec: Codec, x: State, ops: seq<Operation>, i: nat)
    requires i < |ops|
  {
    Harmless(codec, StateAt(codec, x, ops, i), ops[i])
  }

  /** If the members agree with the log at first, as they do with an empty one, they agree
      throughout a run of stores and deletions if and only if every operation of the run
      is harmless. */
  lemma {:induction false} RunAgreesExactlyWhenHarmless(codec: Codec, x: State, ops: seq<Operation>, n: nat)
    requires n <= |ops| && Agrees(codec, x)
    ensures (forall i {:trigger AgreesAt(codec, x, ops, i)} :: 0 <= i <= n ==> AgreesAt(codec, x, ops, i))
            <==> forall i {:trigger HarmlessAt(codec, x, ops, i)} :: 0 <= i < n ==> HarmlessAt(codec, x, ops, i)
  {
    if n == 0 {
      assert AgreesAt(codec, x, ops, 0);
    } else {
      RunAgreesExactlyWhenHarmless(codec, x, ops, n - 1);
      if AgreesAt(codec, x, ops, n - 1) {
        AgreesExactlyWhenHarmless(codec, StateAt(codec, x, ops, n - 1), ops[n - 1]);
        assert AgreesAt(codec, x, ops, n) <==> HarmlessAt(codec, x, ops, n - 1);
      }
    }
  }

  // ------------------------------------------------------- the store's calls

  /** A call of StoreLogs that stored the first n logs. */
  function OperationsOf(ls: seq<Log>, n: nat): seq<Operation>
    requires n <= |ls|
  {
    seq(n, i requires 0 <= i < n => Write(ls[i])) + if n < |ls| then [Fail(ls[n])] else []
  }

  lemma {:induction false} WritesAre(codec: Codec, x: State, ls: seq<Log>, n: nat, i: nat)
    requires i <= n <= |ls|
    ensures StateAt(codec, x, OperationsOf(ls, n), i)
            == State(StoreFirst(x.logs, ls, i), MembersAfter(codec, true, x.members, ls, i))
  {
    if i > 0 {
      WritesAre(codec, x, ls, n, i - 1);
      assert OperationsOf(ls, n)[i - 1] == Write(ls[i - 1]);
    }
  }

  /** What the contract of StoreLogs says is what the operations of the call do. */
  lemma StoreLogsIsRun(codec: Codec, x: State, ls: seq<Log>, n: nat)
    requires n <= |ls|
    ensures var ops := OperationsOf(ls, n);
            StateAt(codec, x, ops, |ops|)
            == State(StoreFirst(x.logs, ls, n),
                     MembersAfter(codec, true, x.members, ls, if n == |ls| then n else n + 1))
  {
    WritesAre(codec, x, ls, n, n);
    if n < |ls| {
      assert OperationsOf(ls, n)[n] == Fail(ls[n]);
    }
  }

  /** A configuration that is truncated before it is committed leaves observers with
      members that no stored configuration has. */
  lemma TruncationLeavesMembersBehind(codec: Codec, members: set<M.MemberId>, older: Log, newer: Log)
    returns (ops: seq<Operation>)
    requires older.kind.Configuration? && newer.kind.Configuration? && older.index < newer.index
    requires Servers(codec, older) != Servers(codec, newer)
    ensures |ops| == 3 && ops[2] == Delete(newer.index, newer.index)
    ensures var x := StateAt(codec, State(map[], members), ops, 3);
            && x.logs == map[older.index := older] && x.members == Servers(codec, newer)
            && !Agrees(codec, x)
  {
    ops := [Write(older), Write(newer), Delete(newer.index, newer.index)];
    var start := State(map[], members);
    var x1 := StateAt(codec, start, ops, 1);
    assert x1 == State(map[older.index := older], Servers(codec, older));
    var x2 := StateAt(codec, start, ops, 2);
    assert x2 == State(map[older.index := older, newer.index := newer], Servers(codec, newer));
    var x3 := StateAt(codec, start, ops, 3);
    assert x3.logs == map[older.index := older];
    assert IsNewest(x3.logs, older.index);
  }
}
