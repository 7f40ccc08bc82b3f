/**
 Recovery of a replica from a snapshot and the truncated log: the log store, the
 state machine and the snapshot working together.
 */
module Recovery {
  import opened Wrappers
  import opened Bytes
  import opened RaftLogStore
  import F = Fsm
  import RaftFsm

  /** The state machine entries of a list of logs: the decoded data of its commands. */
  function Entries(ls: seq<Log>, decode: seq<Byte> -> F.Entry): seq<F.Entry> {
    if ls == [] then []
    else
      var log := ls[|ls| - 1];
      Entries(ls[..|ls| - 1], decode) + if log.kind.Command? then [decode(log.data)] else []
  }

  lemma {:induction false} EntriesConcat(a: seq<Log>, b: seq<Log>, decode: seq<Byte> -> F.Entry)
    ensures Entries(a + b, decode) == Entries(a, decode) + Entries(b, decode)
  {
    if b == [] {
      assert a + b == a;
    } else {
      EntriesConcat(a, b[..|b| - 1], decode);
      assert (a + b)[..|a + b| - 1] == a + b[..|b| - 1];
    }
  }

  /** Every command counts where it stands in the log, and nothing else does. */
  lemma EntriesAreCommands(a: seq<Log>, log: Log, b: seq<Log>, decode: seq<Byte> -> F.Entry)
    ensures Entries([], decode) == []
    ensures Entries(a + [log] + b, decode)
            == Entries(a, decode) + (if log.kind == Command then [decode(log.data)] else []) + Entries(b, decode)
  {
    EntriesOneMore(a, log, decode);
    EntriesConcat(a + [log], b, decode);
  }

  /** The state after one more log, which counts if it is a command. */
  function ApplyLog(s: F.State, log: Log, decode: seq<Byte> -> F.Entry): F.State {
    if log.kind.Command? then F.ApplyEntry(s, decode(log.data)) else s
  }

  lemma EntriesOneMore(ls: seq<Log>, log: Log, decode: seq<Byte> -> F.Entry)
    ensures Entries(ls + [log], decode)
            == Entries(ls, decode) + if log.kind.Command? then [decode(log.data)] else []
  {
    assert (ls + [log])[..|ls|] == ls;
  }

  lemma EntriesSnoc(ls: seq<Log>, m: nat, n: nat, s: F.State, decode: seq<Byte> -> F.Entry)
    requires m <= n < |ls|
    ensures AppliedTo(s, ls, m, n + 1, decode) == ApplyLog(AppliedTo(s, ls, m, n, decode), ls[n], decode)
  {
    assert ls[m..n + 1] == ls[m..n] + [ls[n]];
    EntriesOneMore(ls[m..n], ls[n], decode);
    var l := if ls[n].kind.Command? then F.Apply(decode(ls[n].data)) else F.CloseChannel(0);
    F.AppendStep(s, Entries(ls[m..n], decode), l);
  }

  /** The state after the logs m+1 to u. */
  ghost function AppliedTo(s: F.State, ls: seq<Log>, m: nat, u: nat, decode: seq<Byte> -> F.Entry): F.State
    requires m <= u <= |ls|
  {
    F.ApplyAll(s, Entries(ls[m..u], decode))
  }

  lemma AppliedNothing(s: F.State, ls: seq<Log>, m: nat, decode: seq<Byte> -> F.Entry)
    requires m <= |ls|
    ensures AppliedTo(s, ls, m, m, decode) == s
  {
    assert ls[m..m] == [];
  }

  predicate HoldsAt(logs: map<Uint64, Log>, ls: seq<Log>, u: Uint64)
    requires 0 < u <= |ls|
  {
    u in logs && logs[u] == ls[u - 1]
  }

  /** The store holds log number u of ls, counted from 1, for each m < u <= n. */
  ghost predicate Holds(logs: map<Uint64, Log>, ls: seq<Log>, m: nat, n: nat) {
    && m <= n <= |ls| < TWO_TO_THE_64
    && forall u: Uint64 {:trigger HoldsAt(logs, ls, u)} :: m < u <= n ==> HoldsAt(logs, ls, u)
  }

  predicate Contiguous(ls: seq<Log>) {
    forall i :: 0 <= i < |ls| ==> ls[i].index == i + 1
  }

  /** Reads log u from the store and applies it if it is a command. */
  method ApplyOne(store: RaftStore, fsm: RaftFsm.RaftFsm, u: Uint64, decode: seq<Byte> -> F.Entry)
    requires store.Valid() && fsm.Valid() && u in store.logs
    modifies fsm
    ensures fsm.Valid() && fsm.contents == ApplyLog(old(fsm.contents), store.logs[u], decode)
  {
    var _, log := store.GetLog(u, false);
    if log.value.kind.Command? {
      var result := fsm.Apply(decode(log.value.data));
    }
  }

  /** Reads the logs m+1 to n from the store and applies the commands among them. */
  method ApplyStored(store: RaftStore, fsm: RaftFsm.RaftFsm, ghost ls: seq<Log>, m: nat, n: nat,
                     decode: seq<Byte> -> F.Entry)
    requires store.Valid() && fsm.Valid() && Holds(store.logs, ls, m, n)
    modifies fsm
    ensures fsm.Valid()
    ensures fsm.contents == F.ApplyAll(old(fsm.contents), Entries(ls[m..n], decode))
  {
    ghost var before := fsm.contents;
    var u := m;
    AppliedNothing(before, ls, m, decode);
    while u < n
      invariant m <= u <= n && fsm.Valid()
      invariant fsm.contents == AppliedTo(before, ls, m, u, decode)
    {
      EntriesSnoc(ls, m, u, before, decode);
      u := u + 1;
      assert HoldsAt(store.logs, ls, u);
      ApplyOne(store, fsm, u, decode);
    }
  }

  /** Applies the first i logs and persists a snapshot of the state they give. */
  method SnapshotAt(store: RaftStore, fsm: RaftFsm.RaftFsm, ghost ls: seq<Log>, i: nat, decode: seq<Byte> -> F.Entry)
    returns (persisted: F.State)
    requires store.Valid() && fsm.Valid() && Holds(store.logs, ls, 0, i)
    modifies fsm
    ensures persisted == F.ApplyAll(old(fsm.contents), Entries(ls[0..i], decode))
  {
    ApplyStored(store, fsm, ls, 0, i, decode);
    var snapshot := fsm.Snapshot();
    persisted := snapshot.Persist();
  }

  /** Restores a snapshot and applies the logs m+1 to n left in the store. */
  method RestoreAndApply(store: RaftStore, fsm: RaftFsm.RaftFsm, persisted: F.State, ghost ls: seq<Log>,
                         m: nat, n: nat, decode: seq<Byte> -> F.Entry)
    requires store.Valid() && fsm.Valid() && Holds(store.logs, ls, m, n)
    modifies fsm
    ensures fsm.Valid() && fsm.contents == F.ApplyAll(persisted, Entries(ls[m..n], decode))
  {
    var ok := fsm.Restore(Some(persisted));
    ApplyStored(store, fsm, ls, m, n, decode);
  }

  /** None of the logs up to i is left, unless i is the greatest index and the engine
      does not delete up to it. */
  ghost predicate Truncated(store: RaftStore, i: nat)
    reads store
  {
    i < MAX_UINT64 || store.logStore.nilEndIsUnbounded ==> forall u: Uint64 :: 0 < u <= i ==> u !in store.logs
  }

  /** Deletes the logs up to i: those after it stay. */
  method Truncate(store: RaftStore, ghost ls: seq<Log>, i: nat)
    requires store.Valid() && i <= |ls| && Holds(store.logs, ls, 0, |ls|)
    modifies store, store.logStore
    ensures store.Valid() && Holds(store.logs, ls, i, |ls|) && Truncated(store, i)
  {
    ghost var before := store.logs;
    var err := store.DeleteRange(1, i, false);
    forall u: Uint64 | i < u <= |ls|
      ensures HoldsAt(store.logs, ls, u)
    {
      assert HoldsAt(before, ls, u);
    }
  }

  /** Stores contiguous logs into a store. */
  method StoreContiguous(store: RaftStore, ls: seq<Log>)
    requires store.Valid() && Contiguous(ls) && |ls| < TWO_TO_THE_64
    requires forall j :: 0 <= j < |ls| ==> store.codec.encode(ls[j]).Some?
    modifies store, store.logStore, store.members
    ensures store.Valid() && Holds(store.logs, ls, 0, |ls|)
  {
    var _, stored := store.StoreLogs(ls, None);
    forall u: Uint64 | 0 < u <= |ls|
      ensures HoldsAt(store.logs, ls, u)
    {
      assert IsLastFor(ls, |ls|, u, u - 1);
      StoreFirstAt(old(store.logs), ls, |ls|, u);
    }
  }

  lemma HoldsPart(logs: map<Uint64, Log>, ls: seq<Log>, i: nat)
    requires Holds(logs, ls, 0, |ls|) && i <= |ls|
    ensures Holds(logs, ls, 0, i)
  {
  }

  /** Stores the logs, snapshots the first i of them, and deletes those. */
  method StoreSnapshotTruncate(store: RaftStore, fsm: RaftFsm.RaftFsm, ls: seq<Log>, i: nat,
                               decode: seq<Byte> -> F.Entry) returns (persisted: F.State)
    requires store.Valid() && fsm.Valid()
    requires Contiguous(ls) && i <= |ls| < TWO_TO_THE_64
    requires forall j :: 0 <= j < |ls| ==> store.codec.encode(ls[j]).Some?
    modifies store, store.logStore, store.members, fsm
    ensures store.Valid() && Holds(store.logs, ls, i, |ls|) && Truncated(store, i)
    ensures persisted == F.ApplyAll(old(fsm.contents), Entries(ls[0..i], decode))
  {
    StoreContiguous(store, ls);
    HoldsPart(store.logs, ls, i);
    persisted := SnapshotAt(store, fsm, ls, i, decode);
    Truncate(store, ls, i);
  }

  /** Store the logs 1 to n, apply the first i on one replica, snapshot it there,
      and delete the logs up to i. A replica in any state that then restores the
      snapshot and applies the logs left in the store ends in the state that
      applying all n logs from the beginning gives. */
  method RecoverFromSnapshot(store: RaftStore, fsm: RaftFsm.RaftFsm, replica: RaftFsm.RaftFsm,
                             ls: seq<Log>, i: nat, decode: seq<Byte> -> F.Entry)
    requires store.Valid() && fsm.Valid() && replica.Valid() && fsm != replica
    requires fsm.contents == map[]
    requires Contiguous(ls) && i <= |ls| < TWO_TO_THE_64
    requires forall j :: 0 <= j < |ls| ==> store.codec.encode(ls[j]).Some?
    modifies store, store.logStore, store.members, fsm, replica
    ensures replica.contents == F.ApplyAll(map[], Entries(ls, decode))
    ensures Holds(store.logs, ls, i, |ls|) && Truncated(store, i)
  {
    var persisted := StoreSnapshotTruncate(store, fsm, ls, i, decode);
    RestoreAndApply(store, replica, persisted, ls, i, |ls|, decode);
    RestoredPlusRestIsAll(map[], ls, i, decode);
  }

  /** Applying the logs after i to what the first i produced is applying them all. */
  lemma RestoredPlusRestIsAll(s: F.State, ls: seq<Log>, i: nat, decode: seq<Byte> -> F.Entry)
    requires i <= |ls|
    ensures F.ApplyAll(F.ApplyAll(s, Entries(ls[0..i], decode)), Entries(ls[i..|ls|], decode))
            == F.ApplyAll(s, Entries(ls, decode))
  {
    EntriesConcat(ls[0..i], ls[i..|ls|], decode);
    assert ls[0..i] + ls[i..|ls|] == ls;
    F.ApplyAllConcat(s, Entries(ls[0..i], decode), Entries(ls[i..|ls|], decode));
  }
}
