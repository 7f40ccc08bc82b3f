/**
 The replicated key-value state machine: what a log does to the state and to the
 streams of its observers, over whole runs.

 A log entry is given by the outcome of decoding its data: None for data that is
 not an encoded input. An observer channel is the unbounded log of what was sent.
 */
module Fsm {
  import opened Streams
  import opened Wrappers
  import opened Bytes

  type Blob = seq<Byte>

  type State = map<string, Blob>

  const UNDEFINED := 0
  const SET := 1
  const DELETE := 2

  datatype Input = Input(op: int, key: string, value: Blob)

  type Entry = Option<Input>

  datatype ApplyResult = Applied | DecodeError | UnknownOperation(op: int)

  /** Set and Delete entries change the state and are observed; no others. */
  predicate Effective(e: Entry) {
    e.Some? && e.value.op in {SET, DELETE}
  }

  predicate Names(e: Entry, k: string) {
    Effective(e) && e.value.key == k
  }

  predicate Sets(e: Entry, k: string, v: Blob) {
    e == Some(Input(SET, k, v))
  }

  function ApplyInput(s: State, i: Input): State {
    if i.op == SET then s[i.key := i.value]
    else if i.op == DELETE then s - {i.key}
    else s
  }

  function ApplyEntry(s: State, e: Entry): State {
    if e.None? then s else ApplyInput(s, e.value)
  }

  /** What an observer receives of an entry; a deletion carries no value. */
  function Emission(e: Entry): seq<Input> {
    if !Effective(e) then []
    else if e.value.op == SET then [e.value]
    else [Input(DELETE, e.value.key, [])]
  }

  function ApplyAll(s: State, log: seq<Entry>): State {
    if log == [] then s else ApplyEntry(ApplyAll(s, log[..|log| - 1]), log[|log| - 1])
  }

  function Emissions(log: seq<Entry>): seq<Input> {
    if log == [] then [] else Emissions(log[..|log| - 1]) + Emission(log[|log| - 1])
  }

  /** The state an observer rebuilds from what it received, starting from view. */
  function Fold(view: State, stream: seq<Input>): State {
    if stream == [] then view else ApplyInput(Fold(view, stream[..|stream| - 1]), stream[|stream| - 1])
  }

  lemma {:induction false} FoldConcat(view: State, a: seq<Input>, b: seq<Input>)
    ensures Fold(view, a + b) == Fold(Fold(view, a), b)
  {
    if b == [] {
      assert a + b == a;
    } else {
      FoldConcat(view, a, b[..|b| - 1]);
      assert (a + b)[..|a + b| - 1] == a + b[..|b| - 1];
    }
  }

  lemma FoldOne(view: State, i: Input)
    ensures Fold(view, [i]) == ApplyInput(view, i) && Fold(view, []) == view
  {
    assert [i][..0] == [];
  }

  lemma {:induction false} ApplyAllConcat(s: State, a: seq<Entry>, b: seq<Entry>)
    ensures ApplyAll(s, a + b) == ApplyAll(ApplyAll(s, a), b)
  {
    if b == [] {
      assert a + b == a;
    } else {
      ApplyAllConcat(s, a, b[..|b| - 1]);
      assert (a + b)[..|a + b| - 1] == a + b[..|b| - 1];
    }
  }

  // ------------------------------------------------------- what a log decides

  predicate SameAt(s: State, t: State, k: string) {
    if k in s then k in t && s[k] == t[k] else k !in t
  }

  /** Last writer wins: after any log a key holds v exactly when the last entry
      that names it sets it to v. */
  lemma {:induction false} LastWriterWins(log: seq<Entry>, k: string, v: Blob)
    ensures (k in ApplyAll(map[], log) && ApplyAll(map[], log)[k] == v)
            <==> exists i :: 0 <= i < |log| && Sets(log[i], k, v) && forall j :: i < j < |log| ==> !Names(log[j], k)
  {
    if log != [] {
      var n := |log| - 1;
      var init := log[..n];
      LastWriterWins(init, k, v);
      assert forall i :: 0 <= i < n ==> init[i] == log[i];
      if Names(log[n], k) {
        assert ApplyAll(map[], log) == ApplyEntry(ApplyAll(map[], init), log[n]);
      } else {
        assert SameAt(ApplyAll(map[], log), ApplyAll(map[], init), k);
        if i :| 0 <= i < |log| && Sets(log[i], k, v) && forall j :: i < j < |log| ==> !Names(log[j], k) {
          assert i < n && Sets(init[i], k, v) && forall j :: i < j < n ==> !Names(init[j], k);
        }
        if i :| 0 <= i < n && Sets(init[i], k, v) && forall j :: i < j < n ==> !Names(init[j], k) {
          assert Sets(log[i], k, v) && forall j :: i < j < |log| ==> !Names(log[j], k);
        }
      }
    }
  }

  predicate Touched(log: seq<Entry>, k: string) {
    exists i :: 0 <= i < |log| && Names(log[i], k)
  }

  /** An observer whose view and an FSM whose state differ are brought together by
      a log exactly when the log names every key on which they differ. */
  lemma HealedExactlyWhenTouched(view: State, s: State, log: seq<Entry>)
    ensures Fold(view, Emissions(log)) == ApplyAll(s, log)
            <==> forall k :: !SameAt(view, s, k) ==> Touched(log, k)
  {
    var view', s' := Fold(view, Emissions(log)), ApplyAll(s, log);
    forall k
      ensures if Touched(log, k) then SameAt(view', s', k) else SameAt(view', view, k) && SameAt(s', s, k)
    {
      FoldAndApplyAt(view, s, log, k);
    }
    if view' == s' {
      forall k | !SameAt(view, s, k)
        ensures Touched(log, k)
      {
        assert SameAt(view', s', k);
      }
    } else if forall k :: !SameAt(view, s, k) ==> Touched(log, k) {
      forall k
        ensures SameAt(view', s', k)
      {
        assert SameAt(view, s, k) || Touched(log, k);
      }
      SameEverywhere(view', s');
    }
  }

  lemma SameEverywhere(s: State, t: State)
    requires forall k :: SameAt(s, t, k)
    ensures s == t
  {
    forall k | k in s || k in t
      ensures k in s && k in t && s[k] == t[k]
    {
      assert SameAt(s, t, k);
    }
  }

  /** One entry brings view and state together on the key it names, and leaves
      every other key of both alone. */
  lemma EntryAt(view: State, s: State, e: Entry, k: string)
    ensures var view', s' := Fold(view, Emission(e)), ApplyEntry(s, e);
      if Names(e, k) then SameAt(view', s', k) else SameAt(view', view, k) && SameAt(s', s, k)
  {
    if Effective(e) {
      FoldOne(view, Emission(e)[0]);
    }
  }

  lemma TouchedSnoc(log: seq<Entry>, e: Entry, k: string)
    ensures Touched(log + [e], k) <==> Touched(log, k) || Names(e, k)
  {
    if Touched(log, k) {
      var i :| 0 <= i < |log| && Names(log[i], k);
      assert Names((log + [e])[i], k);
    }
    if Names(e, k) {
      assert Names((log + [e])[|log|], k);
    }
  }

  lemma {:induction false} FoldAndApplyAt(view: State, s: State, log: seq<Entry>, k: string)
    ensures var view', s' := Fold(view, Emissions(log)), ApplyAll(s, log);
      if Touched(log, k) then SameAt(view', s', k) else SameAt(view', view, k) && SameAt(s', s, k)
  {
    if log != [] {
      var n := |log| - 1;
      FoldAndApplyAt(view, s, log[..n], k);
      FoldConcat(view, Emissions(log[..n]), Emission(log[n]));
      EntryAt(Fold(view, Emissions(log[..n])), ApplyAll(s, log[..n]), log[n], k);
      TouchedSnoc(log[..n], log[n], k);
      assert log == log[..n] + [log[n]];
    }
  }

  // ------------------------------------------------------- a repeated entry

  predicate SameEffect(d: Entry, e: Entry) {
    d == e || (d.Some? && e.Some? && d.value.op == e.value.op == DELETE && d.value.key == e.value.key)
  }

  /** The last entry of the log that names the key of e has another effect than e. */
  predicate Overwritten(log: seq<Entry>, e: Entry)
    requires Effective(e)
  {
    exists i ::
      && 0 <= i < |log| && Names(log[i], e.value.key) && !SameEffect(log[i], e)
      && forall j :: i < j < |log| ==> !Names(log[j], e.value.key)
  }

  lemma OverwrittenSnoc(log: seq<Entry>, d: Entry, e: Entry)
    requires Effective(e)
    ensures Overwritten(log + [d], e) <==> if Names(d, e.value.key) then !SameEffect(d, e) else Overwritten(log, e)
  {
    var k, more, n := e.value.key, log + [d], |log|;
    assert more[n] == d;
    if Names(d, k) {
      assert Overwritten(more, e) ==> !SameEffect(d, e);
    } else {
      if i :| 0 <= i < n && Names(log[i], k) && !SameEffect(log[i], e) && forall j :: i < j < n ==> !Names(log[j], k) {
        assert more[i] == log[i];
      }
      if i :| 0 <= i <= n && Names(more[i], k) && !SameEffect(more[i], e)
              && forall j :: i < j <= n ==> !Names(more[j], k) {
        assert log[i] == more[i] && forall j :: i < j < n ==> more[j] == log[j];
      }
    }
  }

  lemma ApplyAllSnoc(s: State, log: seq<Entry>, e: Entry)
    ensures ApplyAll(s, log + [e]) == ApplyEntry(ApplyAll(s, log), e)
  {
    assert (log + [e])[..|log|] == log;
  }

  /** What e did to its key is still there after mid unless it was overwritten. */
  lemma {:induction false} EffectLasts(s: State, e: Entry, mid: seq<Entry>)
    requires Effective(e)
    ensures var t := ApplyAll(ApplyEntry(s, e), mid);
            SameAt(t, ApplyEntry(t, e), e.value.key) <==> !Overwritten(mid, e)
  {
    if mid != [] {
      var n := |mid| - 1;
      EffectLasts(s, e, mid[..n]);
      OverwrittenSnoc(mid[..n], mid[n], e);
      assert mid == mid[..n] + [mid[n]];
    }
  }

  /** Two states agree on a key after a log if they did before it, or the log names it;
      otherwise not. */
  lemma AgreeAfterLog(s: State, t: State, log: seq<Entry>, k: string)
    ensures SameAt(ApplyAll(s, log), ApplyAll(t, log), k) <==> Touched(log, k) || SameAt(s, t, k)
  {
    FoldAndApplyAt(s, s, log, k);
    FoldAndApplyAt(s, t, log, k);
  }

  /** An entry that is in the log twice gives another state than one that is in it once
      if and only if an entry with another effect on its key was the last to name that
      key between the two, and none names it after them: a late duplicate undoes it. */
  lemma DuplicateChangesExactly(s: State, e: Entry, mid: seq<Entry>, post: seq<Entry>)
    ensures ApplyAll(s, [e] + mid + [e] + post) != ApplyAll(s, [e] + mid + post)
            <==> Effective(e) && Overwritten(mid, e) && !Touched(post, e.value.key)
  {
    var t := ApplyAll(ApplyEntry(s, e), mid);
    ApplyAllSnoc(s, [], e);
    assert [] + [e] == [e] && ApplyAll(s, []) == s;
    ApplyAllConcat(s, [e], mid);
    ApplyAllSnoc(s, [e] + mid, e);
    ApplyAllConcat(s, [e] + mid + [e], post);
    ApplyAllConcat(s, [e] + mid, post);
    AppliedTwiceDiffers(t, e, post);
    if Effective(e) {
      EffectLasts(s, e, mid);
    }
  }

  lemma AppliedTwiceDiffers(t: State, e: Entry, post: seq<Entry>)
    ensures ApplyAll(ApplyEntry(t, e), post) != ApplyAll(t, post)
            <==> Effective(e) && !SameAt(t, ApplyEntry(t, e), e.value.key) && !Touched(post, e.value.key)
  {
    var u := ApplyEntry(t, e);
    if !Effective(e) {
      assert u == t;
    } else {
      forall k
        ensures SameAt(ApplyAll(u, post), ApplyAll(t, post), k)
                <==> k != e.value.key || SameAt(t, u, k) || Touched(post, k)
      {
        AgreeAfterLog(u, t, post, k);
      }
      if ApplyAll(u, post) != ApplyAll(t, post) {
        assert !SameAt(ApplyAll(u, post), ApplyAll(t, post), e.value.key) by {
          if SameAt(ApplyAll(u, post), ApplyAll(t, post), e.value.key) {
            SameEverywhere(ApplyAll(u, post), ApplyAll(t, post));
          }
        }
      }
    }
  }

  /** Committed twice, one proposal undoes another that was acknowledged in between. */
  lemma DuplicateUndoesOther(k: string, a: Blob, b: Blob)
    requires a != b
    ensures var first, other := Some(Input(SET, k, a)), Some(Input(SET, k, b));
            && ApplyAll(map[], [first, other]) == map[k := b]
            && ApplyAll(map[], [first, other, first]) == map[k := a]
  {
    var first, other := Some(Input(SET, k, a)), Some(Input(SET, k, b));
    ApplyAllSnoc(map[], [], first);
    ApplyAllSnoc(map[], [first], other);
    ApplyAllSnoc(map[], [first, other], first);
    assert [] + [first] == [first] && [first] + [other] == [first, other];
    assert [first, other] + [first] == [first, other, first];
  }

  // ------------------------------------------------------- one entry

  /** Every observer is told the inputs, after what it was told before; nobody else is. */
  predicate Told(before: map<Chan, seq<Input>>, after: map<Chan, seq<Input>>, to: set<Chan>, inputs: seq<Input>) {
    && after.Keys == before.Keys
    && forall c :: c in before ==> after[c] == if c in to then before[c] + inputs else before[c]
  }

  lemma BroadcastTells(before: map<Chan, seq<Input>>, to: set<Chan>, inputs: seq<Input>)
    ensures Told(before, Broadcast(before, to, inputs), to, inputs)
  {
  }

  // ------------------------------------------------------- runs

  /** A state machine, what its observers received, and what its callers still owe:
      fresh holds the channels whose replay of the current state has been started
      and not yet run, closed those their owner has closed. */
  datatype System = System(
    state: State,
    observers: map<nat, Chan>,
    nextObserverId: nat,
    sent: map<Chan, seq<Input>>,
    unreplayed: set<Chan>,
    closed: set<Chan>)

  datatype Label =
    | AddObserver(c: Chan)
    | Replay(c: Chan)
    | RemoveObserver(id: nat)
    | CloseChannel(c: Chan)
    | Apply(entry: Entry)
    | Restore(snapshot: State)

  const INITIAL := System(map[], map[], 0, map[], {}, {})

  /** The state as Set inputs, one for each of the given keys that it has. */
  function Replayed(s: State, keys: seq<string>): seq<Input> {
    if keys == [] then []
    else
      var k := keys[|keys| - 1];
      Replayed(s, keys[..|keys| - 1]) + if k in s then [Input(SET, k, s[k])] else []
  }

  lemma ReplayedSnoc(stream: seq<Input>, s: State, keys: seq<string>, k: string)
    requires k in s
    ensures stream + Replayed(s, keys) + [Input(SET, k, s[k])] == stream + Replayed(s, keys + [k])
  {
    assert (keys + [k])[..|keys|] == keys;
    assert stream + Replayed(s, keys) + [Input(SET, k, s[k])] == stream + (Replayed(s, keys) + [Input(SET, k, s[k])]);
  }

  /** One Set input (operation 1) for each key, in the order of the keys, has been sent. */
  predicate ToldState(before: seq<Input>, after: seq<Input>, s: State, keys: seq<string>) {
    && |after| == |before| + |keys| && before <= after
    && forall i :: 0 <= i < |keys| ==> keys[i] in s && after[|before| + i] == Input(1, keys[i], s[keys[i]])
  }

  lemma {:induction false} ReplayTellsState(before: seq<Input>, s: State, keys: seq<string>)
    requires forall k :: k in keys ==> k in s
    ensures ToldState(before, before + Replayed(s, keys), s, keys)
  {
    if keys != [] {
      ReplayTellsState(before, s, keys[..|keys| - 1]);
    }
  }

  ghost predicate Enumerates(keys: seq<string>, s: State) {
    Lists(keys, s.Keys)
  }

  /** One critical section. An observer's channel is new, and is closed only after
      its observer has been removed. */
  ghost predicate Next(x: System, l: Label, y: System) {
    match l
    case AddObserver(c) =>
      && c !in x.sent
      && y == x.(nextObserverId := x.nextObserverId + 1,
                 observers := x.observers[x.nextObserverId + 1 := c],
                 sent := x.sent[c := []],
                 unreplayed := x.unreplayed + {c})
    case Replay(c) =>
      && c in x.unreplayed && c in x.sent
      && exists keys ::
           && Enumerates(keys, x.state)
           && y == x.(sent := x.sent[c := x.sent[c] + Replayed(x.state, keys)], unreplayed := x.unreplayed - {c})
    case RemoveObserver(id) =>
      y == x.(observers := x.observers - {id})
    case CloseChannel(c) =>
      && c in x.sent && c !in x.observers.Values
      && y == x.(closed := x.closed + {c})
    case Apply(e) =>
      y == x.(state := ApplyEntry(x.state, e),
              sent := Broadcast(x.sent, x.observers.Values, Emission(e)))
    case Restore(snapshot) =>
      y == x.(state := snapshot)
  }

  lemma ReplayIsStep(x: System, c: Chan, keys: seq<string>, y: System)
    requires c in x.unreplayed && c in x.sent && Enumerates(keys, x.state)
    requires y == x.(sent := x.sent[c := x.sent[c] + Replayed(x.state, keys)], unreplayed := x.unreplayed - {c})
    ensures Next(x, Replay(c), y)
  {
  }

  ghost predicate StepAt(xs: seq<System>, ls: seq<Label>, i: nat)
    requires i < |ls| < |xs|
  {
    Next(xs[i], ls[i], xs[i + 1])
  }

  ghost predicate IsRun(xs: seq<System>, ls: seq<Label>) {
    && |xs| == |ls| + 1
    && xs[0] == INITIAL
    && forall i :: 0 <= i < |ls| ==> StepAt(xs, ls, i)
  }

  predicate Submap(s: State, t: State) {
    forall k :: k in s ==> k in t && s[k] == t[k]
  }

  function Picked(s: State, keys: seq<string>): State {
    map k | k in s && k in keys :: s[k]
  }

  lemma PickedSnoc(view: State, s: State, keys: seq<string>, k: string)
    requires k in s
    ensures (view + Picked(s, keys))[k := s[k]] == view + Picked(s, keys + [k])
  {
    assert forall l :: l in keys + [k] <==> l in keys || l == k;
  }

  lemma {:induction false} ReplayAddsState(view: State, s: State, keys: seq<string>)
    requires forall k :: k in keys ==> k in s
    ensures Fold(view, Replayed(s, keys)) == view + Picked(s, keys)
  {
    if keys == [] {
      assert view + Picked(s, keys) == view;
    } else {
      var n := |keys| - 1;
      ReplayAddsState(view, s, keys[..n]);
      FoldConcat(view, Replayed(s, keys[..n]), [Input(SET, keys[n], s[keys[n]])]);
      FoldOne(Fold(view, Replayed(s, keys[..n])), Input(SET, keys[n], s[keys[n]]));
      PickedSnoc(view, s, keys[..n], keys[n]);
      assert keys[..n] + [keys[n]] == keys;
    }
  }

  /** A replay turns any view into that view overwritten by the whole state: it
      yields exactly the state if and only if the view has no key of its own. */
  lemma ReplayConvergesExactly(view: State, s: State, keys: seq<string>)
    requires Enumerates(keys, s)
    ensures Fold(view, Replayed(s, keys)) == view + s
    ensures Fold(view, Replayed(s, keys)) == s <==> view.Keys <= s.Keys
  {
    ReplayAddsState(view, s, keys);
    assert Picked(s, keys) == s;
    if view + s == s {
      assert forall k :: k in view ==> k in view + s;
    }
  }

  ghost predicate WellFormed(x: System) {
    && x.observers.Values <= x.sent.Keys
    && x.unreplayed <= x.sent.Keys
    && x.closed <= x.sent.Keys
    && x.observers.Values !! x.closed
    && forall id :: id in x.observers ==> id <= x.nextObserverId
  }

  lemma NextKeepsWellFormed(x: System, l: Label, y: System)
    requires WellFormed(x) && Next(x, l, y)
    ensures WellFormed(y)
  {
    if l.AddObserver? {
      assert y.observers.Values <= x.observers.Values + {l.c};
    } else if l.RemoveObserver? {
      assert y.observers.Values <= x.observers.Values;
    }
  }

  lemma {:induction false} RunKeepsWellFormed(xs: seq<System>, ls: seq<Label>, n: nat)
    requires IsRun(xs, ls) && n < |xs|
    ensures WellFormed(xs[n])
  {
    if n > 0 {
      RunKeepsWellFormed(xs, ls, n - 1);
      assert StepAt(xs, ls, n - 1);
      NextKeepsWellFormed(xs[n - 1], ls[n - 1], xs[n]);
    }
  }

  // ------------------------------------------------------- closed channels

  /** The step sends something on a channel that its owner has closed: a panic. */
  predicate SendsOnClosed(x: System, y: System) {
    exists c :: c in x.closed && c in x.sent && c in y.sent && y.sent[c] != x.sent[c]
  }

  predicate SendsOnClosedAt(xs: seq<System>, i: nat)
    requires i + 1 < |xs|
  {
    SendsOnClosed(xs[i], xs[i + 1])
  }

  predicate LateReplay(x: System, l: Label) {
    l.Replay? && l.c in x.closed && x.state != map[]
  }

  lemma {:induction false} ReplayedOfNothing(keys: seq<string>)
    ensures Replayed(map[], keys) == []
  {
    if keys != [] {
      ReplayedOfNothing(keys[..|keys| - 1]);
    }
  }

  lemma ReplayedSomething(s: State, keys: seq<string>)
    requires Enumerates(keys, s)
    ensures Replayed(s, keys) == [] <==> s == map[]
  {
    if s != map[] {
      var k :| k in s;
      assert k in keys && keys[|keys| - 1] in keys;
    } else {
      ReplayedOfNothing(keys);
    }
  }

  /** An applied entry is never sent on a closed channel. A replay is, if and only if
      its observer is gone and the state is not empty. */
  lemma SendsOnClosedExactly(x: System, l: Label, y: System)
    requires WellFormed(x) && Next(x, l, y)
    ensures SendsOnClosed(x, y) <==> LateReplay(x, l)
  {
    match l
    case Replay(c) =>
      var keys :| Enumerates(keys, x.state) && y.sent == x.sent[c := x.sent[c] + Replayed(x.state, keys)];
      ReplayedSomething(x.state, keys);
      assert (x.sent[c] + Replayed(x.state, keys) == x.sent[c]) <==> Replayed(x.state, keys) == [] by {
        assert |x.sent[c] + Replayed(x.state, keys)| == |x.sent[c]| + |Replayed(x.state, keys)|;
      }
    case Apply(e) =>
      assert forall c :: c in x.closed ==> c !in x.observers.Values;
    case _ =>
  }

  /** No step of a run sends on a closed channel if and only if every replay that runs
      after its channel was closed runs on an empty state. */
  lemma RunNeverSendsOnClosedExactly(xs: seq<System>, ls: seq<Label>)
    requires IsRun(xs, ls)
    ensures (forall i :: 0 <= i < |ls| ==> !SendsOnClosedAt(xs, i))
            <==> forall i :: 0 <= i < |ls| ==> !LateReplay(xs[i], ls[i])
  {
    forall i | 0 <= i < |ls|
      ensures SendsOnClosedAt(xs, i) <==> LateReplay(xs[i], ls[i])
    {
      RunKeepsWellFormed(xs, ls, i);
      assert StepAt(xs, ls, i);
      SendsOnClosedExactly(xs[i], ls[i], xs[i + 1]);
    }
  }

  lemma {:induction false} ClosedAreReplayed(xs: seq<System>, ls: seq<Label>, n: nat)
    requires IsRun(xs, ls) && n < |xs|
    requires forall i :: 0 <= i < n && ls[i].CloseChannel? ==> ls[i].c !in xs[i].unreplayed
    ensures xs[n].closed !! xs[n].unreplayed
  {
    if n > 0 {
      ClosedAreReplayed(xs, ls, n - 1);
      RunKeepsWellFormed(xs, ls, n - 1);
      assert StepAt(xs, ls, n - 1);
    }
  }

  /** What an owner can do: close a channel only once its replay is over. */
  lemma ClosingAfterReplayIsSafe(xs: seq<System>, ls: seq<Label>, n: nat)
    requires IsRun(xs, ls) && n < |ls|
    requires forall i :: 0 <= i < |ls| && ls[i].CloseChannel? ==> ls[i].c !in xs[i].unreplayed
    ensures !SendsOnClosed(xs[n], xs[n + 1])
  {
    ClosedAreReplayed(xs, ls, n);
    RunKeepsWellFormed(xs, ls, n);
    assert StepAt(xs, ls, n);
    SendsOnClosedExactly(xs[n], ls[n], xs[n + 1]);
  }

  lemma RunSnoc(xs: seq<System>, ls: seq<Label>, l: Label, y: System)
    requires IsRun(xs, ls) && Next(xs[|ls|], l, y)
    ensures IsRun(xs + [y], ls + [l])
  {
    forall i | 0 <= i < |ls + [l]|
      ensures StepAt(xs + [y], ls + [l], i)
    {
      assert i < |ls| ==> StepAt(xs, ls, i);
    }
  }

  lemma ReplayOfOneKey(x: System, c: Chan, k: string, v: Blob, y: System)
    requires c in x.unreplayed && c in x.sent && x.state == map[k := v]
    requires y == x.(sent := x.sent[c := x.sent[c] + [Input(SET, k, v)]], unreplayed := x.unreplayed - {c})
    ensures Next(x, Replay(c), y)
  {
    ReplayedSnoc([], x.state, [], k);
    assert [] + [k] == [k] && [] + Replayed(x.state, [k]) == Replayed(x.state, [k]);
    assert [] + Replayed(x.state, []) + [Input(SET, k, v)] == [Input(SET, k, v)];
    assert Enumerates([k], x.state);
    ReplayIsStep(x, c, [k], y);
  }

  /** The binding closes the channel without waiting for the replay: a run that fails. */
  lemma ReplayMaySendOnClosedChannel(k: string, v: Blob) returns (xs: seq<System>, ls: seq<Label>)
    ensures IsRun(xs, ls) && ls != [] && SendsOnClosed(xs[|ls| - 1], xs[|ls|])
  {
    var x1 := INITIAL.(state := map[k := v]);
    RunSnoc([INITIAL], [], Apply(Some(Input(SET, k, v))), x1);
    var x2 := x1.(observers := map[1 := 0], nextObserverId := 1, sent := map[0 := []], unreplayed := {0});
    assert x1.unreplayed + {0} == {0};
    RunSnoc([INITIAL, x1], [Apply(Some(Input(SET, k, v)))], AddObserver(0), x2);
    var x3 := x2.(observers := map[]);
    xs, ls := [INITIAL, x1, x2], [Apply(Some(Input(SET, k, v))), AddObserver(0)];
    RunSnoc(xs, ls, RemoveObserver(1), x3);
    var x4 := x3.(closed := {0});
    assert x3.closed + {0} == {0};
    RunSnoc(xs + [x3], ls + [RemoveObserver(1)], CloseChannel(0), x4);
    var x5 := x4.(sent := x4.sent[0 := x4.sent[0] + [Input(SET, k, v)]], unreplayed := x4.unreplayed - {0});
    ReplayOfOneKey(x4, 0, k, v, x5);
    xs, ls := xs + [x3] + [x4], ls + [RemoveObserver(1)] + [CloseChannel(0)];
    RunSnoc(xs, ls, Replay(0), x5);
    xs, ls := xs + [x5], ls + [Replay(0)];
    assert 0 in x4.closed && x5.sent[0] != x4.sent[0];
  }

  // ------------------------------------------------------- convergence

  /** An observer's view is behind the state before its replay and at it afterwards. */
  ghost predicate Converging(x: System, c: Chan) {
    && c in x.sent
    && if c in x.unreplayed then Submap(Fold(map[], x.sent[c]), x.state) else Fold(map[], x.sent[c]) == x.state
  }

  lemma ReplayConverges(x: System, y: System, c: Chan)
    requires Next(x, Replay(c), y) && Converging(x, c)
    ensures Converging(y, c)
  {
    var view := Fold(map[], x.sent[c]);
    var keys :| Enumerates(keys, x.state) && y.sent == x.sent[c := x.sent[c] + Replayed(x.state, keys)];
    FoldConcat(map[], x.sent[c], Replayed(x.state, keys));
    ReplayConvergesExactly(view, x.state, keys);
    assert view.Keys <= x.state.Keys;
  }

  lemma ApplyKeepsConverging(x: System, e: Entry, y: System, c: Chan)
    requires Next(x, Apply(e), y) && Converging(x, c) && c in x.observers.Values
    ensures Converging(y, c)
  {
    var view := Fold(map[], x.sent[c]);
    FoldConcat(map[], x.sent[c], Emission(e));
    forall k
      ensures if Names(e, k) then SameAt(Fold(view, Emission(e)), y.state, k)
              else SameAt(Fold(view, Emission(e)), view, k) && SameAt(y.state, x.state, k)
    {
      EntryAt(view, x.state, e, k);
    }
    if c !in x.unreplayed {
      SameEverywhere(Fold(view, Emission(e)), y.state);
    }
  }

  lemma NextKeepsConverging(x: System, l: Label, y: System, id: nat)
    requires WellFormed(x) && Next(x, l, y)
    requires id in x.observers && id in y.observers && y.observers[id] == x.observers[id]
    requires Converging(x, x.observers[id])
    requires !l.Restore?
    ensures Converging(y, x.observers[id])
  {
    var c := x.observers[id];
    if l == Replay(c) {
      ReplayConverges(x, y, c);
    } else if l.Apply? {
      ApplyKeepsConverging(x, l.entry, y, c);
    } else {
      assert y.state == x.state && y.sent[c] == x.sent[c];
      assert c in y.unreplayed <==> c in x.unreplayed;
    }
  }

  /** Late-observer convergence. Take any run and an observer that is registered
      at step m and still is at step n, with no Restore in between, whatever else
      happens: entries applied before and after its replay, other observers coming
      and going. Then its view is at every point contained in the state, and equal
      to it once the replay has run. */
  lemma {:induction false} LateObserverConverges(xs: seq<System>, ls: seq<Label>, m: nat, n: nat)
    requires IsRun(xs, ls) && m < n < |xs| && ls[m].AddObserver?
    requires forall i :: m <= i < n ==> !ls[i].Restore?
    requires forall i :: m < i <= n ==> xs[m + 1].nextObserverId in xs[i].observers
    ensures xs[m + 1].nextObserverId in xs[n].observers
    ensures xs[n].observers[xs[m + 1].nextObserverId] == ls[m].c
    ensures Converging(xs[n], ls[m].c)
  {
    RunKeepsWellFormed(xs, ls, n - 1);
    assert StepAt(xs, ls, n - 1);
    if n > m + 1 {
      LateObserverConverges(xs, ls, m, n - 1);
      NextIdsGrow(xs, ls, m + 1, n - 1);
      NextKeepsConverging(xs[n - 1], ls[n - 1], xs[n], xs[m + 1].nextObserverId);
    }
  }

  lemma {:induction false} NextIdsGrow(xs: seq<System>, ls: seq<Label>, m: nat, n: nat)
    requires IsRun(xs, ls) && m <= n < |xs|
    ensures xs[m].nextObserverId <= xs[n].nextObserverId
  {
    if m < n {
      NextIdsGrow(xs, ls, m, n - 1);
      assert StepAt(xs, ls, n - 1);
    }
  }

  /** Restore tells observers nothing. In any run, an observer whose replay was over
      when the state was last restored agrees with the state exactly when the entries
      applied since name every key on which its view differed from the restored state. */
  lemma ConvergesAfterRestoreExactly(xs: seq<System>, ls: seq<Label>, m: nat, n: nat, id: nat)
    requires IsRun(xs, ls) && m < n < |xs| && ls[m].Restore?
    requires id in xs[m].observers && xs[m].observers[id] !in xs[m].unreplayed
    requires forall i :: m < i < n ==> !ls[i].Restore?
    requires forall i :: m < i <= n ==> id in xs[i].observers
    ensures xs[m].observers[id] in xs[m].sent
    ensures var view := Fold(map[], xs[m].sent[xs[m].observers[id]]);
            Converging(xs[n], xs[m].observers[id])
            <==> forall k :: !SameAt(view, ls[m].snapshot, k) ==> Touched(Log(ls[m + 1..n]), k)
  {
    var c, log := xs[m].observers[id], Log(ls[m + 1..n]);
    RunKeepsWellFormed(xs, ls, m);
    assert c in xs[m].observers.Values;
    assert StepAt(xs, ls, m);
    EntriesReachObserver(xs, ls, m + 1, n, id);
    FoldConcat(map[], xs[m].sent[c], Emissions(log));
    HealedExactlyWhenTouched(Fold(map[], xs[m].sent[c]), ls[m].snapshot, log);
  }

  /** A replayed view differs from the state in the keys that only the view had. */
  lemma ReplayedViewDiffers(view: State, s: State, k: string)
    ensures SameAt(view + s, s, k) <==> !(k in view && k !in s)
  {
  }

  /** A replay into a stream, followed by the emissions of a log. */
  lemma ReplayHealsExactly(stream: seq<Input>, s: State, keys: seq<string>, log: seq<Entry>)
    requires Enumerates(keys, s)
    ensures var view := Fold(map[], stream);
            Fold(map[], stream + Replayed(s, keys) + Emissions(log)) == ApplyAll(s, log)
            <==> forall k :: k in view && k !in s ==> Touched(log, k)
  {
    var view := Fold(map[], stream);
    FoldConcat(map[], stream, Replayed(s, keys));
    FoldConcat(map[], stream + Replayed(s, keys), Emissions(log));
    ReplayConvergesExactly(view, s, keys);
    HealedExactlyWhenTouched(view + s, s, log);
    forall k
      ensures SameAt(view + s, s, k) <==> !(k in view && k !in s)
    {
      ReplayedViewDiffers(view, s, k);
    }
  }

  /** An observer whose replay runs last, after whatever was restored before it, agrees
      with the state exactly when the entries applied since name every key that it had
      been told of before the replay and that the state no longer had. */
  lemma ConvergesAfterReplayExactly(xs: seq<System>, ls: seq<Label>, r: nat, n: nat, id: nat)
    requires IsRun(xs, ls) && r < n < |xs| && ls[r].Replay?
    requires id in xs[r].observers && xs[r].observers[id] == ls[r].c
    requires forall i :: r < i < n ==> !ls[i].Restore?
    requires forall i :: r < i <= n ==> id in xs[i].observers
    ensures ls[r].c in xs[r].sent
    ensures var view := Fold(map[], xs[r].sent[ls[r].c]);
            Converging(xs[n], ls[r].c)
            <==> forall k :: k in view && k !in xs[r].state ==> Touched(Log(ls[r + 1..n]), k)
  {
    var c, log, s := ls[r].c, Log(ls[r + 1..n]), xs[r].state;
    RunKeepsWellFormed(xs, ls, r);
    assert StepAt(xs, ls, r);
    var keys :| Enumerates(keys, s) && xs[r + 1].sent == xs[r].sent[c := xs[r].sent[c] + Replayed(s, keys)];
    EntriesReachObserver(xs, ls, r + 1, n, id);
    ReplayHealsExactly(xs[r].sent[c], s, keys, log);
  }

  /** A run in which a snapshot restored between registration and replay leaves the
      observer with a key that the state does not have, after the replay too. */
  lemma RestoreBeforeReplayMayDiverge(k: string, v: Blob) returns (xs: seq<System>, ls: seq<Label>)
    ensures IsRun(xs, ls) && |ls| == 4 && ls[0] == AddObserver(0) && ls[3] == Replay(0)
    ensures 0 !in xs[4].unreplayed && !Converging(xs[4], 0)
  {
    var set1, told := Apply(Some(Input(SET, k, v))), [Input(SET, k, v)];
    var x1 := INITIAL.(observers := map[1 := 0], nextObserverId := 1, sent := map[0 := []], unreplayed := {0});
    assert INITIAL.unreplayed + {0} == {0};
    RunSnoc([INITIAL], [], AddObserver(0), x1);
    var x2 := x1.(state := map[k := v], sent := map[0 := told]);
    assert x1.observers[1] == 0 && 0 in x1.observers.Values && [] + told == told;
    assert Broadcast(x1.sent, x1.observers.Values, told) == x2.sent;
    RunSnoc([INITIAL, x1], [AddObserver(0)], set1, x2);
    var x3 := x2.(state := map[]);
    xs, ls := [INITIAL, x1, x2], [AddObserver(0), set1];
    RunSnoc(xs, ls, Restore(map[]), x3);
    var x4 := x3.(unreplayed := {});
    xs, ls := xs + [x3], ls + [Restore(map[])];
    ReplayOfEmptyState(x3, 0, x4);
    RunSnoc(xs, ls, Replay(0), x4);
    xs, ls := xs + [x4], ls + [Replay(0)];
    FoldOne(map[], told[0]);
    assert k in Fold(map[], x4.sent[0]) && k !in x4.state;
  }

  lemma ReplayOfEmptyState(x: System, c: Chan, y: System)
    requires c in x.unreplayed && c in x.sent && x.state == map[]
    requires y == x.(unreplayed := x.unreplayed - {c})
    ensures Next(x, Replay(c), y)
  {
    assert x.sent[c] + Replayed(x.state, []) == x.sent[c];
    assert x.sent[c := x.sent[c]] == x.sent && Enumerates([], x.state);
    ReplayIsStep(x, c, [], y);
  }

  function StepLog(l: Label): seq<Entry> {
    if l.Apply? then [l.entry] else []
  }

  /** The entries a run applied, in order. */
  function Log(ls: seq<Label>): seq<Entry> {
    if ls == [] then [] else Log(ls[..|ls| - 1]) + StepLog(ls[|ls| - 1])
  }

  lemma AppendStep(s: State, log: seq<Entry>, l: Label)
    ensures Emissions(log + StepLog(l)) == Emissions(log) + if l.Apply? then Emission(l.entry) else []
    ensures ApplyAll(s, log + StepLog(l))
            == if l.Apply? then ApplyEntry(ApplyAll(s, log), l.entry) else ApplyAll(s, log)
  {
    if l.Apply? {
      assert (log + [l.entry])[..|log|] == log;
    } else {
      assert log + [] == log && Emissions(log) + [] == Emissions(log);
    }
  }

  /** From x to y, observer id stayed registered with nothing left to replay, and
      the log went into the state and, as emissions, into the observer's stream. */
  ghost predicate Follows(x: System, y: System, id: nat, log: seq<Entry>) {
    && y.state == ApplyAll(x.state, log)
    && id in x.observers && id in y.observers && y.observers[id] == x.observers[id]
    && x.observers[id] !in x.unreplayed && x.observers[id] !in y.unreplayed
    && x.observers[id] in x.sent && x.observers[id] in y.sent
    && y.sent[x.observers[id]] == x.sent[x.observers[id]] + Emissions(log)
  }

  lemma StepReachesObserver(x: System, l: Label, y: System, id: nat)
    requires WellFormed(x) && Next(x, l, y) && !l.Restore?
    requires id in x.observers && id in y.observers && x.observers[id] !in x.unreplayed
    ensures Follows(x, y, id, StepLog(l))
  {
    var c := x.observers[id];
    assert c in x.observers.Values;
    AppendStep(x.state, [], l);
    assert [] + StepLog(l) == StepLog(l);
    assert x.sent[c] + [] == x.sent[c];
    assert forall e :: [] + Emission(e) == Emission(e);
  }

  lemma FollowsTransitive(x: System, y: System, z: System, id: nat, log: seq<Entry>, l: Label)
    requires Follows(x, y, id, log) && Follows(y, z, id, StepLog(l))
    ensures Follows(x, z, id, log + StepLog(l))
  {
    var c := x.observers[id];
    ApplyAllConcat(x.state, log, StepLog(l));
    EmissionsConcat(x.sent[c], log, l);
  }

  lemma EmissionsOfStep(l: Label)
    ensures Emissions(StepLog(l)) == if l.Apply? then Emission(l.entry) else []
  {
    AppendStep(map[], [], l);
    assert [] + StepLog(l) == StepLog(l);
    Associative([], [], Emissions(StepLog(l)));
  }

  lemma EmissionsConcat(stream: seq<Input>, log: seq<Entry>, l: Label)
    ensures stream + Emissions(log) + Emissions(StepLog(l)) == stream + Emissions(log + StepLog(l))
  {
    AppendStep(map[], log, l);
    EmissionsOfStep(l);
    Associative(stream, Emissions(log), Emissions(StepLog(l)));
  }

  lemma FollowsItself(x: System, id: nat)
    requires WellFormed(x) && id in x.observers && x.observers[id] !in x.unreplayed
    ensures Follows(x, x, id, [])
  {
    assert x.observers[id] in x.observers.Values;
    assert x.sent[x.observers[id]] + [] == x.sent[x.observers[id]];
  }

  lemma LogSnoc(ls: seq<Label>, m: nat, n: nat)
    requires m < n <= |ls|
    ensures Log(ls[m..n]) == Log(ls[m..n - 1]) + StepLog(ls[n - 1])
  {
    assert ls[m..n][..n - 1 - m] == ls[m..n - 1];
  }

  lemma {:induction false} EntriesReachObserver(xs: seq<System>, ls: seq<Label>, m: nat, n: nat, id: nat)
    requires IsRun(xs, ls) && m <= n < |xs|
    requires id in xs[m].observers && xs[m].observers[id] !in xs[m].unreplayed
    requires forall i :: m <= i < n ==> !ls[i].Restore?
    requires forall i :: m <= i <= n ==> id in xs[i].observers
    ensures Follows(xs[m], xs[n], id, Log(ls[m..n]))
  {
    RunKeepsWellFormed(xs, ls, if m == n then m else n - 1);
    if m == n {
      FollowsItself(xs[m], id);
      assert ls[m..n] == [];
    } else {
      EntriesReachObserver(xs, ls, m, n - 1, id);
      assert StepAt(xs, ls, n - 1);
      StepReachesObserver(xs[n - 1], ls[n - 1], xs[n], id);
      FollowsTransitive(xs[m], xs[n - 1], xs[n], id, Log(ls[m..n - 1]), ls[n - 1]);
      LogSnoc(ls, m, n);
    }
  }

  // ------------------------------------------------------- replica agreement

  /** The state after a run as its log alone determines it. */
  function LoggedState(ls: seq<Label>): State {
    if ls == [] then map[]
    else
      match ls[|ls| - 1]
      case Apply(e) => ApplyEntry(LoggedState(ls[..|ls| - 1]), e)
      case Restore(snapshot) => snapshot
      case _ => LoggedState(ls[..|ls| - 1])
  }

  lemma {:induction false} StateIsLogged(xs: seq<System>, ls: seq<Label>, n: nat)
    requires IsRun(xs, ls) && n <= |ls|
    ensures xs[n].state == LoggedState(ls[..n])
  {
    if n > 0 {
      StateIsLogged(xs, ls, n - 1);
      assert StepAt(xs, ls, n - 1);
      assert ls[..n][..n - 1] == ls[..n - 1];
    }
  }

  lemma {:induction false} LoggedStateIsApplied(ls: seq<Label>)
    requires forall i :: 0 <= i < |ls| ==> !ls[i].Restore?
    ensures LoggedState(ls) == ApplyAll(map[], Log(ls))
  {
    if ls != [] {
      LoggedStateIsApplied(ls[..|ls| - 1]);
      AppendStep(map[], Log(ls[..|ls| - 1]), ls[|ls| - 1]);
    }
  }

  /** Replicas that applied the same log are in the same state, whatever observers
      each of them served in between. */
  lemma ReplicasAgree(xs: seq<System>, ls: seq<Label>, ys: seq<System>, ms: seq<Label>)
    requires IsRun(xs, ls) && IsRun(ys, ms) && Log(ls) == Log(ms)
    requires forall i :: 0 <= i < |ls| ==> !ls[i].Restore?
    requires forall i :: 0 <= i < |ms| ==> !ms[i].Restore?
    ensures xs[|ls|].state == ys[|ms|].state
  {
    StateIsLogged(xs, ls, |ls|);
    StateIsLogged(ys, ms, |ms|);
    assert ls[..|ls|] == ls && ms[..|ms|] == ms;
    LoggedStateIsApplied(ls);
    LoggedStateIsApplied(ms);
  }
}
