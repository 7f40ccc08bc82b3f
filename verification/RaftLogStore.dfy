/**
 The Raft log store: logs indexed by 64-bit integers, kept as encoded values
 under 8-byte big-endian keys of an ordered byte store.
 */
module RaftLogStore {
  import opened Wrappers
  import opened Bytes
  import opened PebbleStore
  import M = Membership

  /** Commands go to the state machine, configurations to the membership, the rest
      (no-ops and barriers) to neither. */
  datatype LogKind = Command | Configuration | Other

  datatype Log = Log(index: Uint64, term: Uint64, kind: LogKind, data: seq<Byte>)

  /** MessagePack, of which only the round trip is used: an encoded value decodes
      to itself. Encoding may fail, and so may decoding foreign bytes. */
  datatype Codec = Codec(
    encode: Log -> Option<Value>,
    decode: Value -> Option<Log>,
    servers: seq<Byte> -> seq<M.MemberId>)
  {
    ghost predicate Faithful() {
      forall log :: encode(log).Some? ==> decode(encode(log).value) == Some(log)
    }
  }

  datatype LogError = Store(error: Error) | Encoding | LogNotFound | Decoding

  function KeysOf(logs: map<Uint64, Log>): set<Key> {
    set u | u in logs :: Uint64ToBytes(u)
  }

  /** The byte store db holds exactly the given logs, each under its own index. */
  ghost predicate Represents(db: map<Key, Value>, logs: map<Uint64, Log>, codec: Codec) {
    && db.Keys == KeysOf(logs)
    && (forall u :: u in logs ==>
          && logs[u].index == u
          && Uint64ToBytes(u) in db
          && codec.decode(db[Uint64ToBytes(u)]) == Some(logs[u]))
  }

  /** The logs after storing the first n of ls. */
  function StoreFirst(logs: map<Uint64, Log>, ls: seq<Log>, n: nat): map<Uint64, Log>
    requires n <= |ls|
  {
    if n == 0 then logs else StoreFirst(logs, ls, n - 1)[ls[n - 1].index := ls[n - 1]]
  }

  /** The i-th log is the last of the first n for the index. */
  predicate IsLastFor(ls: seq<Log>, n: nat, u: Uint64, i: nat)
    requires n <= |ls|
  {
    i < n && ls[i].index == u && forall j :: i < j < n ==> ls[j].index != u
  }

  /** Storing is a map update per log, the last one for an index winning. */
  lemma {:induction false} StoreFirstAt(logs: map<Uint64, Log>, ls: seq<Log>, n: nat, u: Uint64)
    requires n <= |ls|
    ensures u in StoreFirst(logs, ls, n) <==> u in logs || exists i: nat :: IsLastFor(ls, n, u, i)
    ensures u in logs && (forall i: nat :: !IsLastFor(ls, n, u, i)) ==> StoreFirst(logs, ls, n)[u] == logs[u]
    ensures forall i: nat :: IsLastFor(ls, n, u, i) ==> StoreFirst(logs, ls, n)[u] == ls[i]
  {
    if n > 0 {
      if ls[n - 1].index == u {
        assert IsLastFor(ls, n, u, n - 1);
      } else {
        StoreFirstAt(logs, ls, n - 1, u);
        LastForEarlier(ls, n - 1, n, u);
      }
    }
  }

  lemma LastForEarlier(ls: seq<Log>, m: nat, n: nat, u: Uint64)
    requires n == m + 1 <= |ls| && ls[m].index != u
    ensures forall i: nat :: IsLastFor(ls, m, u, i) <==> IsLastFor(ls, n, u, i)
  {
  }

  function WithoutRange(logs: map<Uint64, Log>, min: Uint64, max: Uint64): map<Uint64, Log> {
    map u | u in logs && !(min <= u <= max) :: logs[u]
  }

  // ------------------------------------------------------- refinement steps

  lemma StoreRefinesUpdate(db: map<Key, Value>, logs: map<Uint64, Log>, log: Log, codec: Codec)
    requires codec.Faithful() && Represents(db, logs, codec) && codec.encode(log).Some?
    ensures Represents(db[Uint64ToBytes(log.index) := codec.encode(log).value], logs[log.index := log], codec)
  {
    var key, logs' := Uint64ToBytes(log.index), logs[log.index := log];
    forall u | u in logs'
      ensures u != log.index ==> Uint64ToBytes(u) != key
    {
      Uint64OrderIsomorphism(u, log.index);
    }
    assert KeysOf(logs') == KeysOf(logs) + {key} by {
      assert log.index in logs' && key in KeysOf(logs');
      assert forall k :: k in KeysOf(logs) ==> exists u :: u in logs && u in logs' && k == Uint64ToBytes(u);
    }
  }

  /** The exclusive key bound for an inclusive index bound; none after the last index. */
  function RangeEnd(max: Uint64): Option<Key> {
    if max == MAX_UINT64 then UpperBound(Uint64ToBytes(max)) else Some(Uint64ToBytes(max + 1))
  }

  lemma RangeEndOfLastIndex(max: Uint64)
    requires max == MAX_UINT64
    ensures UpperBound(Uint64ToBytes(max)) == None
  {
    assert Pow256(UINT64_SIZE) == TWO_TO_THE_64;
    LastIndexHasNoUpperBound(UINT64_SIZE, max);
  }

  lemma {:induction false} LastIndexHasNoUpperBound(n: nat, u: nat)
    requires u == Pow256(n) - 1
    ensures UpperBound(BigEndian(u, n)) == None
  {
    if n > 0 {
      assert u == (Pow256(n - 1) - 1) * 256 + 255;
      LastIndexHasNoUpperBound(n - 1, u / 256);
      assert BigEndian(u, n) == BigEndian(u / 256, n - 1) + [255];
    }
  }

  lemma IndexInRange(u: Uint64, min: Uint64, max: Uint64)
    ensures InRange(Uint64ToBytes(u), Some(Uint64ToBytes(min)), RangeEnd(max)) <==> min <= u <= max
  {
    Uint64OrderIsomorphism(min, u);
    if max == MAX_UINT64 {
      RangeEndOfLastIndex(max);
    } else {
      Uint64OrderIsomorphism(u, max + 1);
    }
  }

  /** Whether DeleteRange reaches its indices: always, unless the range goes to the
      last index and the engine does not take a missing end as unbounded. */
  predicate RangeIsDeletable(max: Uint64, nilEndIsUnbounded: bool) {
    max < MAX_UINT64 || nilEndIsUnbounded
  }

  /** Which indices a range deletion reaches. */
  lemma IndexIsDeleted(u: Uint64, min: Uint64, max: Uint64, nilEndIsUnbounded: bool)
    ensures var end := if RangeEnd(max).None? && !nilEndIsUnbounded then Some([]) else RangeEnd(max);
            InRange(Uint64ToBytes(u), Some(Uint64ToBytes(min)), end)
            <==> RangeIsDeletable(max, nilEndIsUnbounded) && min <= u <= max
  {
    if max == MAX_UINT64 {
      RangeEndOfLastIndex(max);
    }
    IndexInRange(u, min, max);
  }

  lemma DeleteRefinesWithoutRange(db: map<Key, Value>, logs: map<Uint64, Log>, min: Uint64, max: Uint64,
                                  nilEndIsUnbounded: bool, codec: Codec)
    requires Represents(db, logs, codec)
    ensures Represents(DeletedRange(db, Uint64ToBytes(min), RangeEnd(max), nilEndIsUnbounded),
                       if RangeIsDeletable(max, nilEndIsUnbounded) then WithoutRange(logs, min, max) else logs, codec)
  {
    var db' := DeletedRange(db, Uint64ToBytes(min), RangeEnd(max), nilEndIsUnbounded);
    var kept := if RangeIsDeletable(max, nilEndIsUnbounded) then WithoutRange(logs, min, max) else logs;
    forall u | u in logs
      ensures Uint64ToBytes(u) in db' <==> u in kept
    {
      IndexIsDeleted(u, min, max, nilEndIsUnbounded);
      assert Uint64ToBytes(u) in KeysOf(logs);
    }
    assert forall u :: u in kept ==> u in logs && kept[u] == logs[u];
    assert db'.Keys == KeysOf(kept);
  }

  lemma RepresentedMapIsUnique(db: map<Key, Value>, logs: map<Uint64, Log>, others: map<Uint64, Log>, codec: Codec)
    requires Represents(db, logs, codec) && Represents(db, others, codec)
    ensures logs == others
  {
    forall u: Uint64
      ensures u in logs <==> u in others
    {
      KeyPresent(logs, u);
      KeyPresent(others, u);
    }
    assert logs.Keys == others.Keys;
  }

  /** Deleting the byte range drops exactly the logs of the inclusive index range if and
      only if the range can be deleted or there is nothing to delete. */
  lemma RangeDeletionIsExact(db: map<Key, Value>, logs: map<Uint64, Log>, min: Uint64, max: Uint64,
                             nilEndIsUnbounded: bool, codec: Codec)
    requires Represents(db, logs, codec)
    ensures Represents(DeletedRange(db, Uint64ToBytes(min), RangeEnd(max), nilEndIsUnbounded),
                       WithoutRange(logs, min, max), codec)
            <==> RangeIsDeletable(max, nilEndIsUnbounded) || forall u :: u in logs ==> !(min <= u <= max)
  {
    var db' := DeletedRange(db, Uint64ToBytes(min), RangeEnd(max), nilEndIsUnbounded);
    DeleteRefinesWithoutRange(db, logs, min, max, nilEndIsUnbounded, codec);
    if !RangeIsDeletable(max, nilEndIsUnbounded) {
      if Represents(db', WithoutRange(logs, min, max), codec) {
        RepresentedMapIsUnique(db', logs, WithoutRange(logs, min, max), codec);
      } else {
        assert WithoutRange(logs, min, max) != logs;
      }
    }
  }

  /** On such an engine a log at the greatest index survives its deletion. */
  lemma GreatestIndexMaySurvive(codec: Codec, log: Log)
    requires codec.Faithful() && codec.encode(log).Some? && log.index == MAX_UINT64
    ensures var key := Uint64ToBytes(log.index);
            var db := map[key := codec.encode(log).value];
            && Represents(db, map[log.index := log], codec)
            && DeletedRange(db, key, RangeEnd(log.index), false) == db
  {
    var key := Uint64ToBytes(log.index);
    var db := map[key := codec.encode(log).value];
    assert KeysOf(map[]) == {} && Represents(map[], map[], codec);
    StoreRefinesUpdate(map[], map[], log, codec);
    assert map[][key := db[key]] == db && map[][log.index := log] == map[log.index := log];
    IndexIsDeleted(log.index, log.index, log.index, false);
    assert DeletedRange(db, key, RangeEnd(log.index), false).Keys == db.Keys;
  }

  /** The first and the last key of a scan over everything are the least and the
      greatest index. */
  lemma ScanEndsAreExtremeIndices(db: map<Key, Value>, logs: map<Uint64, Log>, codec: Codec)
    requires Represents(db, logs, codec)
    ensures Scan(db, None, None) == [] <==> logs == map[]
    ensures var es := Scan(db, None, None);
      es != [] ==>
        && |es[0].0| == 8 && |es[|es| - 1].0| == 8
        && IsFirst(logs, BytesToUint64(es[0].0)) && IsLast(logs, BytesToUint64(es[|es| - 1].0))
  {
    var es := Scan(db, None, None);
    forall u | u in logs
      ensures es != []
    {
      var _ := PositionOf(db, logs, codec, u);
    }
    assert logs != map[] ==> exists u :: u in logs;
    if es != [] {
      var n := |es| - 1;
      var first := ScannedIndex(db, logs, codec, 0);
      var last := ScannedIndex(db, logs, codec, n);
      forall u | u in logs
        ensures first <= u <= last
      {
        var i := PositionOf(db, logs, codec, u);
        Uint64OrderIsomorphism(first, u);
        Uint64OrderIsomorphism(u, last);
      }
    }
  }

  /** A stored index is scanned somewhere between the ends. */
  lemma PositionOf(db: map<Key, Value>, logs: map<Uint64, Log>, codec: Codec, u: Uint64) returns (i: nat)
    requires Represents(db, logs, codec) && u in logs
    ensures var es := Scan(db, None, None);
      && i < |es| && es[i].0 == Uint64ToBytes(u)
      && (i == 0 || Less(es[0].0, es[i].0))
      && (i == |es| - 1 || Less(es[i].0, es[|es| - 1].0))
  {
    var es := Scan(db, None, None);
    ScanListsRange(db, None, None);
    var key := Uint64ToBytes(u);
    assert (key, db[key]) in es;
    i :| 0 <= i < |es| && es[i] == (key, db[key]);
  }

  /** The i-th key of a full scan encodes a stored index. */
  lemma ScannedIndex(db: map<Key, Value>, logs: map<Uint64, Log>, codec: Codec, i: nat) returns (u: Uint64)
    requires Represents(db, logs, codec) && i < |Scan(db, None, None)|
    ensures u in logs && Scan(db, None, None)[i].0 == Uint64ToBytes(u)
    ensures BytesToUint64(Scan(db, None, None)[i].0) == u
  {
    var e := Scan(db, None, None)[i];
    ScanListsRange(db, None, None);
    assert (e.0, e.1) in Scan(db, None, None);
    u :| u in logs && e.0 == Uint64ToBytes(u);
    Uint64RoundTrip(u, []);
  }

  lemma KeyPresent(logs: map<Uint64, Log>, index: Uint64)
    ensures Uint64ToBytes(index) in KeysOf(logs) <==> index in logs
  {
    if Uint64ToBytes(index) in KeysOf(logs) {
      var u :| u in logs && Uint64ToBytes(u) == Uint64ToBytes(index);
      Uint64OrderIsomorphism(u, index);
    }
  }

  /** A callback that stops at once sees the first pair, if there is one. */
  lemma VisitsOne(visited: seq<Entry>, scan: seq<Entry>, more: seq<Entry> -> bool)
    requires Visits(visited, scan, more) && forall es :: !more(es)
    ensures visited == if scan == [] then [] else [scan[0]]
  {
    var n := if visited == [] then 0 else 1;
    var head := visited[..n];
    assert head == scan[..n] && !more(head);
  }

  lemma FirstVisited(db: map<Key, Value>, logs: map<Uint64, Log>, codec: Codec, visited: seq<Entry>,
                     more: seq<Entry> -> bool)
    requires Represents(db, logs, codec)
    requires Visits(visited, Scan(db, None, None), more) && forall es :: !more(es)
    ensures visited == [] <==> logs == map[]
    ensures visited != [] ==> |visited[0].0| == 8 && IsFirst(logs, BytesToUint64(visited[0].0))
  {
    ScanEndsAreExtremeIndices(db, logs, codec);
    VisitsOne(visited, Scan(db, None, None), more);
  }

  lemma LastVisited(db: map<Key, Value>, logs: map<Uint64, Log>, codec: Codec, visited: seq<Entry>,
                    more: seq<Entry> -> bool)
    requires Represents(db, logs, codec)
    requires Visits(visited, ScanReverse(db, None, None), more) && forall es :: !more(es)
    ensures visited == [] <==> logs == map[]
    ensures visited != [] ==> |visited[0].0| == 8 && IsLast(logs, BytesToUint64(visited[0].0))
  {
    ScanEndsAreExtremeIndices(db, logs, codec);
    VisitsOne(visited, ScanReverse(db, None, None), more);
  }

  predicate IsFirst(logs: map<Uint64, Log>, u: Uint64) {
    u in logs && forall v :: v in logs ==> u <= v
  }

  predicate IsLast(logs: map<Uint64, Log>, u: Uint64) {
    u in logs && forall v :: v in logs ==> v <= u
  }

  // ------------------------------------------------------- the store

  /** The first n logs can be encoded, and the engine does not fail writing them. */
  predicate Storable(codec: Codec, ls: seq<Log>, n: nat, failAt: Option<nat>)
    requires n <= |ls|
  {
    forall i :: 0 <= i < n ==> codec.encode(ls[i]).Some? && failAt != Some(i)
  }

  /** What storing the first n logs has led to. */
  predicate Progress(codec: Codec, observed: bool, logs: map<Uint64, Log>, members: set<M.MemberId>, ls: seq<Log>,
                     n: nat, failAt: Option<nat>, logs': map<Uint64, Log>, members': set<M.MemberId>)
    requires n <= |ls|
  {
    && Storable(codec, ls, n, failAt)
    && logs' == StoreFirst(logs, ls, n)
    && members' == MembersAfter(codec, observed, members, ls, n)
  }

  lemma OneLogMore(codec: Codec, observed: bool, logs: map<Uint64, Log>, members: set<M.MemberId>, ls: seq<Log>,
                   n: nat, failAt: Option<nat>, logs': map<Uint64, Log>, members': set<M.MemberId>)
    requires n < |ls| && Progress(codec, observed, logs, members, ls, n, failAt, logs', members')
    ensures MemberStep(codec, observed, members', ls[n]) == MembersAfter(codec, observed, members, ls, n + 1)
    ensures codec.encode(ls[n]).Some? && failAt != Some(n) ==>
              Progress(codec, observed, logs, members, ls, n + 1, failAt, logs'[ls[n].index := ls[n]],
                       MemberStep(codec, observed, members', ls[n]))
  {
  }

  class RaftStore {
    const logStore: PebbleBinding
    const members: M.MembershipObservers
    const codec: Codec
    ghost var logs: map<Uint64, Log>

    ghost predicate Valid()
      reads this, logStore, members
    {
      && codec.Faithful()
      && logStore.open
      && Represents(logStore.db, logs, codec)
      && members.Valid()
    }

    constructor (codec: Codec, nilEndIsUnbounded: bool)
      requires codec.Faithful()
      ensures Valid() && logs == map[] && fresh(logStore) && fresh(members)
      ensures this.codec == codec && logStore.nilEndIsUnbounded == nilEndIsUnbounded
    {
      this.codec := codec;
      logStore := new PebbleBinding(nilEndIsUnbounded);
      members := new M.MembershipObservers();
      logs := map[];
    }

    /** The least stored index, 0 on an empty log. */
    method FirstIndex(closeFails: bool) returns (err: Option<Error>, first: Uint64)
      requires Valid()
      ensures err == if closeFails then Some(Engine) else None
      ensures first == 0 || (err.None? && IsFirst(logs, first))
      ensures err.None? ==> (logs == map[] ==> first == 0) && (logs != map[] ==> IsFirst(logs, first))
    {
      var visited;
      err, visited := logStore.ScanRangeB(None, None, _ => false, closeFails);
      FirstVisited(logStore.db, logs, codec, visited, _ => false);
      first := if err.Some? || visited == [] then 0 else BytesToUint64(visited[0].0);
    }

    /** The greatest stored index, 0 on an empty log. */
    method LastIndex(closeFails: bool) returns (err: Option<Error>, last: Uint64)
      requires Valid()
      ensures err == if closeFails then Some(Engine) else None
      ensures last == 0 || (err.None? && IsLast(logs, last))
      ensures err.None? ==> (logs == map[] ==> last == 0) && (logs != map[] ==> IsLast(logs, last))
    {
      var visited;
      err, visited := logStore.ScanRangeReverseB(None, None, _ => false, closeFails);
      LastVisited(logStore.db, logs, codec, visited, _ => false);
      last := if err.Some? || visited == [] then 0 else BytesToUint64(visited[0].0);
    }

    method GetLog(index: Uint64, fails: bool) returns (err: Option<LogError>, log: Option<Log>)
      requires Valid()
      ensures err == if fails then Some(Store(Engine)) else if index in logs then None else Some(LogNotFound)
      ensures log == if err.None? then Some(logs[index]) else None
    {
      log := None;
      KeyPresent(logs, index);
      var failure, value := logStore.GetB(Uint64ToBytes(index), fails);
      if failure.Some? {
        return Some(Store(failure.value)), log;
      }
      if value.None? {
        return Some(LogNotFound), log;
      }
      log := codec.decode(value.value);
      err := if log.None? then Some(Decoding) else None;
    }

    /** One round of StoreLogs. A configuration log is announced to the membership
        observers before it is written. */
    method StoreOne(log: Log, fails: bool) returns (err: Option<LogError>)
      requires Valid()
      modifies this`logs, logStore`db, members`memberIds, members`sent
      ensures Valid()
      ensures err == if codec.encode(log).None? then Some(Encoding) else if fails then Some(Store(Engine)) else None
      ensures logs == if err.None? then old(logs)[log.index := log] else old(logs)
      ensures members.observers == old(members.observers)
      ensures members.memberIds == MemberStep(codec, members.observers != map[], old(members.memberIds), log)
    {
      if log.kind.Configuration? {
        members.ChangeServers(codec.servers(log.data));
      }
      var key, value := Uint64ToBytes(log.index), codec.encode(log);
      if value.None? {
        return Some(Encoding);
      }
      StoreRefinesUpdate(logStore.db, logs, log, codec);
      var failure := logStore.SetB(key, value, fails);
      if failure.Some? {
        return Some(Store(failure.value));
      }
      logs := logs[log.index := log];
      err := None;
    }

    /** Stores the logs in order, stopping at the first that cannot be encoded or
        written (failAt is the write at which the engine fails): exactly the logs
        before it are stored, and the members are those of the last configuration
        log up to and including it. */
    method StoreLogs(ls: seq<Log>, failAt: Option<nat>) returns (err: Option<LogError>, stored: nat)
      requires Valid()
      modifies this`logs, logStore`db, members`memberIds, members`sent
      ensures Valid() && stored <= |ls|
      ensures logs == StoreFirst(old(logs), ls, stored)
      ensures Storable(codec, ls, stored, failAt)
      ensures err == if stored == |ls| then None
                     else if codec.encode(ls[stored]).None? then Some(Encoding)
                     else Some(Store(Engine))
      ensures stored < |ls| ==> codec.encode(ls[stored]).None? || failAt == Some(stored)
      ensures members.observers == old(members.observers)
      ensures members.memberIds == MembersAfter(codec, members.observers != map[], old(members.memberIds), ls,
                                                if err.None? then stored else stored + 1)
    {
      ghost var observed, before := members.observers != map[], members.memberIds;
      stored := 0;
      while stored < |ls|
        invariant 0 <= stored <= |ls| && Valid()
        invariant members.observers == old(members.observers)
        invariant Progress(codec, observed, old(logs), before, ls, stored, failAt, logs, members.memberIds)
      {
        OneLogMore(codec, observed, old(logs), before, ls, stored, failAt, logs, members.memberIds);
        err := StoreOne(ls[stored], failAt == Some(stored));
        if err.Some? {
          return;
        }
        stored := stored + 1;
      }
      err := None;
    }

    /** Deletes the logs with min <= index <= max. */
    method DeleteRange(min: Uint64, max: Uint64, fails: bool) returns (err: Option<LogError>)
      requires Valid()
      modifies this`logs, logStore`db
      ensures Valid()
      ensures err == if fails then Some(Store(Engine)) else None
      ensures logs == if err.None? && RangeIsDeletable(max, logStore.nilEndIsUnbounded)
                      then WithoutRange(old(logs), min, max)
                      else old(logs)
    {
      var end: Option<Key>;
      if max == MAX_UINT64 {
        end := KeyUpperBound(Uint64ToBytes(max));
      } else {
        end := Some(Uint64ToBytes(max + 1));
      }
      DeleteRefinesWithoutRange(logStore.db, logs, min, max, logStore.nilEndIsUnbounded, codec);
      var failure := logStore.DeleteRangeB(Uint64ToBytes(min), end, fails);
      if failure.Some? {
        return Some(Store(failure.value));
      }
      if RangeIsDeletable(max, logStore.nilEndIsUnbounded) {
        logs := WithoutRange(logs, min, max);
      }
      err := None;
    }
  }

  /** The members after one log: those of a configuration log, if anybody observes. */
  function MemberStep(codec: Codec, observed: bool, members: set<M.MemberId>, log: Log): set<M.MemberId> {
    if observed && log.kind.Configuration? then M.Ids(codec.servers(log.data)) else members
  }

  function MembersAfter(codec: Codec, observed: bool, members: set<M.MemberId>, ls: seq<Log>, n: nat):
    set<M.MemberId>
    requires n <= |ls|
  {
    if n == 0 then members
    else MemberStep(codec, observed, MembersAfter(codec, observed, members, ls, n - 1), ls[n - 1])
  }

  lemma {:induction false} MembersStay(codec: Codec, observed: bool, members: set<M.MemberId>, ls: seq<Log>, n: nat)
    requires n <= |ls| && (observed ==> forall j :: 0 <= j < n ==> ls[j].kind != Configuration)
    ensures MembersAfter(codec, observed, members, ls, n) == members
  {
    if n > 0 {
      MembersStay(codec, observed, members, ls, n - 1);
    }
  }

  /** The members that observers are told of are the servers of the last configuration,
      and stay as they are if there is none, or nobody observes. */
  lemma {:induction false} MembersFollowConfiguration(codec: Codec, members: set<M.MemberId>, ls: seq<Log>, n: nat,
                                                      i: nat)
    requires i < n <= |ls| && ls[i].kind == Configuration
    requires forall j :: i < j < n ==> ls[j].kind != Configuration
    ensures MembersAfter(codec, true, members, ls, n) == set id | id in codec.servers(ls[i].data)
    ensures MembersAfter(codec, false, members, ls, n) == MembersAfter(codec, true, members, ls, 0) == members
  {
    MembersStay(codec, false, members, ls, n);
    if i < n - 1 {
      MembersFollowConfiguration(codec, members, ls, n - 1, i);
    }
  }
}
