/**
 The storage binding over the Pebble engine. The engine itself is a finite map
 from keys to values with iterators in key order; whether one of its calls fails
 is an input of the operation, and a failing call leaves the map unchanged.
 */
module PebbleStore {
  import opened Wrappers
  import opened Bytes

  type Value = seq<Byte>

  type Entry = (Key, Value)

  datatype Error = NotOpen | NilValue | Engine

  // ---------------------------------------------------------------- key ranges

  /** [start,end), a missing bound being open. */
  predicate InRange(k: Key, start: Option<Key>, end: Option<Key>) {
    (start.Some? ==> AtMost(start.value, k)) && (end.Some? ==> Less(k, end.value))
  }

  predicate IsLeast(s: set<Key>, k: Key) {
    k in s && forall j :: j in s ==> AtMost(k, j)
  }

  lemma LeastExists(s: set<Key>) returns (k: Key)
    requires s != {}
    ensures IsLeast(s, k)
  {
    k :| k in s;
    if s != {k} {
      var m := LeastExists(s - {k});
      LessTotal(k, m);
      var least := if Less(k, m) then k else m;
      forall j | j in s
        ensures AtMost(least, j)
      {
        if j != k && Less(k, m) {
          AtMostTransitive(k, m, j);
        }
      }
      k := least;
    }
  }

  lemma LeastIsUnique(s: set<Key>, k: Key, l: Key)
    requires IsLeast(s, k) && IsLeast(s, l)
    ensures k == l
  {
    LessTrichotomy(k, l);
  }

  function Least(s: set<Key>): (k: Key)
    requires s != {}
    ensures IsLeast(s, k)
  {
    assert exists k :: IsLeast(s, k) by {
      var k := LeastExists(s);
    }
    assert forall k, l :: IsLeast(s, k) && IsLeast(s, l) ==> k == l by {
      forall k, l | IsLeast(s, k) && IsLeast(s, l)
        ensures k == l
      {
        LeastIsUnique(s, k, l);
      }
    }
    var k :| IsLeast(s, k);
    k
  }

  /** The keys of a set in the order an iterator visits them. */
  function Sorted(s: set<Key>): (ks: seq<Key>)
    ensures forall k :: k in ks <==> k in s
    decreases |s|
  {
    if s == {} then [] else [Least(s)] + Sorted(s - {Least(s)})
  }

  predicate StrictlyAscending(ks: seq<Key>) {
    forall i, j :: 0 <= i < j < |ks| ==> Less(ks[i], ks[j])
  }

  lemma {:induction false} SortedAscends(s: set<Key>)
    ensures StrictlyAscending(Sorted(s))
    decreases |s|
  {
    if s != {} {
      var k, rest := Least(s), s - {Least(s)};
      SortedAscends(rest);
      forall j | 0 <= j < |Sorted(rest)|
        ensures Less(k, Sorted(rest)[j])
      {
        assert Sorted(rest)[j] in rest;
      }
    }
  }

  function KeysInRange(db: map<Key, Value>, start: Option<Key>, end: Option<Key>): set<Key> {
    set k | k in db && InRange(k, start, end)
  }

  /** What an iterator over [start,end) yields from First to the end. */
  function Scan(db: map<Key, Value>, start: Option<Key>, end: Option<Key>): seq<Entry> {
    var ks := Sorted(KeysInRange(db, start, end));
    seq(|ks|, i requires 0 <= i < |ks| => assert ks[i] in ks; (ks[i], db[ks[i]]))
  }

  /** What an iterator over [start,end) yields from Last to the beginning. */
  function ScanReverse(db: map<Key, Value>, start: Option<Key>, end: Option<Key>): seq<Entry> {
    var es := Scan(db, start, end);
    seq(|es|, i requires 0 <= i < |es| => es[|es| - 1 - i])
  }

  predicate Ascending(es: seq<Entry>) {
    forall i, j :: 0 <= i < j < |es| ==> Less(es[i].0, es[j].0)
  }

  /** A scan lists exactly the pairs in range, in strictly ascending key order. */
  lemma ScanListsRange(db: map<Key, Value>, start: Option<Key>, end: Option<Key>)
    ensures Ascending(Scan(db, start, end))
    ensures forall k, v :: (k, v) in Scan(db, start, end) <==> k in db && db[k] == v && InRange(k, start, end)
  {
    var s := KeysInRange(db, start, end);
    SortedAscends(s);
    forall k, v | k in db && db[k] == v && InRange(k, start, end)
      ensures (k, v) in Scan(db, start, end)
    {
      assert k in Sorted(s);
      var i :| 0 <= i < |Sorted(s)| && Sorted(s)[i] == k;
      assert Scan(db, start, end)[i] == (k, v);
    }
    forall k, v | (k, v) in Scan(db, start, end)
      ensures k in db && db[k] == v && InRange(k, start, end)
    {
      var i :| 0 <= i < |Sorted(s)| && Scan(db, start, end)[i] == (k, v);
      assert Sorted(s)[i] in s;
    }
  }

  /** visited is what a callback sees of a scan if it asks to stop once more(...)
      is false of what it has seen so far: a leading segment, all of it unless
      stopped, and nothing after the stop. */
  ghost predicate Visits(visited: seq<Entry>, scan: seq<Entry>, more: seq<Entry> -> bool) {
    && visited <= scan
    && (forall n :: 0 < n < |visited| ==> more(visited[..n]))
    && (|visited| < |scan| ==> visited != [] && !more(visited))
  }

  /** The callback asks for more after each of the first n pairs. */
  ghost predicate Continues(scan: seq<Entry>, n: nat, more: seq<Entry> -> bool)
    requires n <= |scan|
  {
    forall k :: 0 < k <= n ==> more(scan[..k])
  }

  /** What has been visited when the callback stops, or the scan ends. */
  lemma VisitsUpTo(scan: seq<Entry>, n: nat, more: seq<Entry> -> bool, visited: seq<Entry>)
    requires 0 < n <= |scan| && Continues(scan, n - 1, more) && visited == scan[..n]
    requires n < |scan| ==> !more(visited)
    ensures Visits(visited, scan, more)
  {
    forall k | 0 < k < |visited|
      ensures more(visited[..k])
    {
      assert visited[..k] == scan[..k];
    }
  }

  lemma VisitsAll(scan: seq<Entry>, more: seq<Entry> -> bool)
    requires Continues(scan, |scan|, more)
    ensures Visits(scan, scan, more)
  {
    if scan != [] {
      assert scan[..|scan|] == scan;
      VisitsUpTo(scan, |scan|, more, scan);
    }
  }

  /** A callback is told exactly one sequence of pairs. */
  lemma VisitsIsUnique(a: seq<Entry>, b: seq<Entry>, scan: seq<Entry>, more: seq<Entry> -> bool)
    requires Visits(a, scan, more) && Visits(b, scan, more)
    ensures a == b
  {
    assert |a| <= |b| ==> b[..|a|] == a;
    assert |b| <= |a| ==> a[..|b|] == b;
  }

  function FirstKeys(ks: seq<Key>, n: nat): set<Key>
    requires n <= |ks|
  {
    set i | 0 <= i < n :: ks[i]
  }

  lemma FirstKeysSnoc(db: map<Key, Value>, ks: seq<Key>, n: nat)
    requires n < |ks|
    ensures db - FirstKeys(ks, n) - {ks[n]} == db - FirstKeys(ks, n + 1)
  {
    assert FirstKeys(ks, n + 1) == FirstKeys(ks, n) + {ks[n]};
  }

  // ---------------------------------------------------------------- the binding

  class PebbleBinding {
    var open: bool
    var db: map<Key, Value>

    /** Whether the engine takes a missing end of DeleteRange as "no upper bound";
        if not, a missing end is the empty key and the range is empty. */
    const nilEndIsUnbounded: bool

    constructor (nilEndIsUnbounded: bool)
      ensures open && db == map[] && this.nilEndIsUnbounded == nilEndIsUnbounded
    {
      open, db := true, map[];
      this.nilEndIsUnbounded := nilEndIsUnbounded;
    }

    method GetB(key: Key, fails: bool) returns (err: Option<Error>, value: Option<Value>)
      ensures err == if !open then Some(NotOpen) else if fails then Some(Engine) else None
      ensures value == if err.None? && key in db then Some(db[key]) else None
    {
      value := None;
      if !open {
        return Some(NotOpen), value;
      }
      if fails {
        return Some(Engine), value;
      }
      err := None;
      if key in db {
        value := Some(db[key]);
      }
    }

    method SetB(key: Key, value: Option<Value>, fails: bool) returns (err: Option<Error>)
      modifies this`db
      ensures err == if value.None? then Some(NilValue)
                     else if !open then Some(NotOpen)
                     else if fails then Some(Engine)
                     else None
      ensures db == if err.None? then old(db)[key := value.value] else old(db)
    {
      if value.None? {
        return Some(NilValue);
      }
      if !open {
        return Some(NotOpen);
      }
      if fails {
        return Some(Engine);
      }
      db := db[key := value.value];
      err := None;
    }

    method DeleteRangeB(start: Key, end: Option<Key>, fails: bool) returns (err: Option<Error>)
      modifies this`db
      ensures err == if !open then Some(NotOpen) else if fails then Some(Engine) else None
      ensures db == if err.None? then DeletedRange(old(db), start, end, nilEndIsUnbounded) else old(db)
      ensures err.None? && (end.Some? || nilEndIsUnbounded) ==>
                db == map k | k in old(db) && !(AtMost(start, k) && (end.None? || Less(k, end.value))) :: old(db)[k]
      ensures err.None? && end.None? && !nilEndIsUnbounded ==> db == old(db)
    {
      if !open {
        return Some(NotOpen);
      }
      if fails {
        return Some(Engine);
      }
      var last := if end.None? && !nilEndIsUnbounded then Some([]) else end;
      db := map k | k in db && !InRange(k, Some(start), last) :: db[k];
      err := None;
    }

    method DeletePrefixB(prefix: Key, fails: bool) returns (err: Option<Error>)
      modifies this`db
      ensures err == if !open then Some(NotOpen) else if fails then Some(Engine) else None
      ensures err.None? && DeletesByPrefix(prefix, nilEndIsUnbounded) ==>
                db == map k | k in old(db) && !HasPrefix(k, prefix) :: old(db)[k]
      ensures err.Some? || !DeletesByPrefix(prefix, nilEndIsUnbounded) ==> db == old(db)
    {
      if !open {
        return Some(NotOpen);
      }
      var end := KeyUpperBound(prefix);
      DeletedRangeByPrefix(db, prefix, nilEndIsUnbounded);
      err := DeleteRangeB(prefix, end, fails);
    }

    /** Deletes one key per iterator step; failAt is the step at which the engine fails. */
    method DeleteAll(failAt: Option<nat>) returns (err: Option<Error>)
      modifies this`db
      ensures !open ==> err == Some(NotOpen) && db == old(db)
      ensures open ==>
        var all := Sorted(old(db).Keys);
        var n := if failAt.Some? && failAt.value < |all| then failAt.value else |all|;
        && (err == if n < |all| then Some(Engine) else None)
        && db == old(db) - FirstKeys(all, n)
      ensures err.None? ==> db == map[]
    {
      if !open {
        return Some(NotOpen);
      }
      var all := Sorted(db.Keys);
      var i := 0;
      while i < |all|
        invariant 0 <= i <= |all|
        invariant failAt.Some? ==> i <= failAt.value || |all| <= failAt.value
        invariant db == old(db) - FirstKeys(all, i)
      {
        if failAt == Some(i) {
          return Some(Engine);
        }
        FirstKeysSnoc(old(db), all, i);
        db := db - {all[i]};
        i := i + 1;
      }
      assert FirstKeys(all, |all|) == old(db).Keys;
      err := None;
    }

    method ScanRangeB(start: Option<Key>, end: Option<Key>, more: seq<Entry> -> bool, closeFails: bool)
      returns (err: Option<Error>, visited: seq<Entry>)
      ensures !open ==> err == Some(NotOpen) && visited == []
      ensures open ==> err == (if closeFails then Some(Engine) else None) && Visits(visited, Scan(db, start, end), more)
    {
      visited := [];
      if !open {
        return Some(NotOpen), visited;
      }
      err := if closeFails then Some(Engine) else None;
      var scan := Scan(db, start, end);
      var i := 0;
      while i < |scan|
        invariant 0 <= i <= |scan| && visited == scan[..i]
        invariant Continues(scan, i, more)
      {
        visited := visited + [scan[i]];
        assert visited == scan[..i + 1];
        if !more(visited) {
          VisitsUpTo(scan, i + 1, more, visited);
          return;
        }
        i := i + 1;
      }
      assert visited == scan;
      VisitsAll(scan, more);
    }

    method ScanRangeReverseB(start: Option<Key>, end: Option<Key>, more: seq<Entry> -> bool, closeFails: bool)
      returns (err: Option<Error>, visited: seq<Entry>)
      ensures !open ==> err == Some(NotOpen) && visited == []
      ensures open ==>
                && err == (if closeFails then Some(Engine) else None)
                && Visits(visited, ScanReverse(db, start, end), more)
    {
      visited := [];
      if !open {
        return Some(NotOpen), visited;
      }
      err := if closeFails then Some(Engine) else None;
      var scan := Scan(db, start, end);
      ghost var reverse := ScanReverse(db, start, end);
      ghost var n := 0;
      var i := |scan| - 1;
      while i >= 0
        invariant -1 <= i && n == |scan| - 1 - i && visited == reverse[..n]
        invariant Continues(reverse, n, more)
      {
        visited := visited + [scan[i]];
        assert visited == reverse[..n + 1];
        if !more(visited) {
          VisitsUpTo(reverse, n + 1, more, visited);
          return;
        }
        i, n := i - 1, n + 1;
      }
      assert visited == reverse;
      VisitsAll(reverse, more);
    }

    /** Visits, in ascending key order, the pairs whose key starts with the prefix. */
    method ScanPrefixB(prefix: Key, more: seq<Entry> -> bool, closeFails: bool)
      returns (err: Option<Error>, visited: seq<Entry>)
      ensures !open ==> err == Some(NotOpen) && visited == []
      ensures open ==> err == if closeFails then Some(Engine) else None
      ensures open ==> exists scan: seq<Entry> ::
        && Ascending(scan)
        && (forall k, v :: (k, v) in scan <==> k in db && db[k] == v && HasPrefix(k, prefix))
        && Visits(visited, scan, more)
    {
      visited := [];
      if !open {
        return Some(NotOpen), visited;
      }
      var end := KeyUpperBound(prefix);
      err, visited := ScanRangeB(Some(prefix), end, more, closeFails);
      ScanListsRange(db, Some(prefix), end);
      assert forall k :: InRange(k, Some(prefix), end) <==> HasPrefix(k, prefix);
    }
  }

  // ---------------------------------------------------------------- deletion

  function DeletedRange(db: map<Key, Value>, start: Key, end: Option<Key>, nilEndIsUnbounded: bool): map<Key, Value> {
    map k | k in db && !InRange(k, Some(start), if end.None? && !nilEndIsUnbounded then Some([]) else end) :: db[k]
  }

  /** Whether deleting a prefix range reaches the keys with that prefix: always,
      unless the prefix has no upper bound and the engine needs one. */
  predicate DeletesByPrefix(prefix: Key, nilEndIsUnbounded: bool) {
    nilEndIsUnbounded || exists i :: 0 <= i < |prefix| && prefix[i] != 255
  }

  lemma DeletedRangeByPrefix(db: map<Key, Value>, prefix: Key, nilEndIsUnbounded: bool)
    ensures DeletedRange(db, prefix, UpperBound(prefix), nilEndIsUnbounded)
            == if DeletesByPrefix(prefix, nilEndIsUnbounded)
               then map k | k in db && !HasPrefix(k, prefix) :: db[k]
               else db
  {
    forall k | k in db
      ensures HasPrefix(k, prefix) <==> InRange(k, Some(prefix), UpperBound(prefix))
    {
      UpperBoundCharacterisesPrefix(prefix, k);
    }
    assert forall k :: !InRange(k, Some(prefix), Some([]));
  }

  /** Prefix deletion removes the keys with the prefix, and no others, exactly when
      the prefix has an upper bound, the engine needs none, or there are no such keys. */
  lemma PrefixDeletionIsExact(db: map<Key, Value>, prefix: Key, nilEndIsUnbounded: bool)
    ensures DeletedRange(db, prefix, UpperBound(prefix), nilEndIsUnbounded)
            == (map k | k in db && !HasPrefix(k, prefix) :: db[k])
            <==> DeletesByPrefix(prefix, nilEndIsUnbounded) || forall k :: k in db ==> !HasPrefix(k, prefix)
  {
    DeletedRangeByPrefix(db, prefix, nilEndIsUnbounded);
    var kept := map k | k in db && !HasPrefix(k, prefix) :: db[k];
    if k :| k in db && HasPrefix(k, prefix) {
      assert k in db && k !in kept;
    } else {
      assert kept == db;
    }
  }
}
