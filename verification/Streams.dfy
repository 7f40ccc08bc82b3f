/**
 Sequences without repetition, and channels as the logs of what was sent on them.
 */
module Streams {

  type Chan = nat

  predicate Distinct<T(==)>(s: seq<T>) {
    forall i, j :: 0 <= i < j < |s| ==> s[i] != s[j]
  }

  /** a comes before b. */
  predicate Precedes<T(==)>(s: seq<T>, a: T, b: T) {
    exists i, j :: 0 <= i < j < |s| && s[i] == a && s[j] == b
  }

  /** A selection of the elements of s, in the order of s. */
  predicate Selects<T(==)>(part: seq<T>, s: seq<T>) {
    && Distinct(part)
    && forall i, j :: 0 <= i < j < |part| ==> Precedes(s, part[i], part[j])
  }

  lemma SelectsAll<T>(s: seq<T>)
    requires Distinct(s)
    ensures Selects(s, s)
  {
    forall i, j | 0 <= i < j < |s|
      ensures Precedes(s, s[i], s[j])
    {
    }
  }

  /** One more element, which may be selected too. */
  lemma SelectsSnoc<T>(part: seq<T>, s: seq<T>, t: T)
    requires Distinct(s + [t]) && Selects(part, s) && forall p :: p in part ==> p in s
    ensures Selects(part, s + [t]) && Selects(part + [t], s + [t])
  {
    var more := s + [t];
    assert more[|s|] == t;
    forall k | 0 <= k < |part|
      ensures Precedes(more, part[k], t) && part[k] != t
    {
      assert part[k] in part;
      var i :| 0 <= i < |s| && s[i] == part[k];
      assert more[i] == part[k] && more[|s|] == t;
    }
    forall i, j | 0 <= i < j < |part|
      ensures Precedes(more, part[i], part[j])
    {
      assert Precedes(s, part[i], part[j]);
      var k, l :| 0 <= k < l < |s| && s[k] == part[i] && s[l] == part[j];
      assert more[k] == part[i] && more[l] == part[j];
    }
  }

  lemma Associative<T>(a: seq<T>, b: seq<T>, c: seq<T>)
    ensures a + b + c == a + (b + c)
  {
  }

  /** The same items appended to the log of every given channel. */
  function Broadcast<T>(sent: map<Chan, seq<T>>, to: set<Chan>, items: seq<T>): map<Chan, seq<T>> {
    map c | c in sent :: if c in to then sent[c] + items else sent[c]
  }

  lemma BroadcastNothing<T>(sent: map<Chan, seq<T>>, to: set<Chan>)
    ensures Broadcast(sent, to, []) == sent
  {
    assert forall c :: c in sent ==> sent[c] + [] == sent[c];
  }

  lemma BroadcastToNobody<T>(sent: map<Chan, seq<T>>, items: seq<T>)
    ensures Broadcast(sent, {}, items) == sent
  {
  }

  lemma BroadcastOneMore<T>(sent: map<Chan, seq<T>>, to: set<Chan>, c: Chan, items: seq<T>)
    requires c in sent && c !in to
    ensures Broadcast(sent, to, items)[c := sent[c] + items] == Broadcast(sent, to + {c}, items)
  {
  }

  lemma BroadcastTwice<T>(sent: map<Chan, seq<T>>, to: set<Chan>, a: seq<T>, b: seq<T>)
    ensures Broadcast(Broadcast(sent, to, a), to, b) == Broadcast(sent, to, a + b)
  {
    forall c | c in sent && c in to
      ensures sent[c] + a + b == sent[c] + (a + b)
    {
    }
  }

  /** Exactly the given elements, each once. */
  ghost predicate Lists<T(!new)>(s: seq<T>, ts: set<T>) {
    (forall t :: t in s <==> t in ts) && Distinct(s)
  }

  lemma ListsSnoc<T(!new)>(s: seq<T>, ts: set<T>, t: T)
    requires Lists(s, ts) && t !in ts
    ensures Lists(s + [t], ts + {t})
  {
  }

  /** A map or set is traversed in an order that is up to the runtime. */
  method SomeOrder<T(==, !new)>(ts: set<T>) returns (s: seq<T>)
    ensures Lists(s, ts)
  {
    s := [];
    var rest := ts;
    while rest != {}
      invariant rest <= ts && Lists(s, ts - rest)
      decreases rest
    {
      var t :| t in rest;
      ListsSnoc(s, ts - rest, t);
      assert ts - (rest - {t}) == (ts - rest) + {t};
      rest := rest - {t};
      s := s + [t];
    }
    assert ts - rest == ts;
  }

  /** Every registered channel at its own key only. */
  predicate Injective<K(==), V(==)>(m: map<K, V>) {
    forall i, j :: i in m && j in m && m[i] == m[j] ==> i == j
  }
}
