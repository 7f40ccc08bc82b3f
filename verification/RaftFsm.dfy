/**
 The state machine object. Values are byte arrays on the heap, so the module also
 settles who shares which array: what the machine holds is never an array that an
 observer or a snapshot has been handed.
 */
module RaftFsm {
  import opened Wrappers
  import opened Bytes
  import opened Streams
  import F = Fsm

  /** An input on a channel; deletions carry no value array. */
  datatype SentInput = SentInput(op: int, key: string, value: array?<Byte>)

  /** A snapshot holds value arrays of its own. */
  datatype FsmSnapshot = FsmSnapshot(state: map<string, array<Byte>>)
  {
    ghost function Contents(): F.State
      reads state.Values
    {
      map k | k in state :: state[k][..]
    }

    /** Persist: what is written to the sink, which the codec can read back. */
    method Persist() returns (written: F.State)
      ensures written == Contents()
    {
      written := map[];
      var rest := state.Keys;
      while rest != {}
        invariant rest <= state.Keys
        invariant written == map k | k in state && k !in rest :: state[k][..]
        decreases rest
      {
        var k :| k in rest;
        rest := rest - {k};
        written := written[k := state[k][..]];
      }
    }
  }

  method CloneBytes(v: array<Byte>) returns (cv: array<Byte>)
    ensures fresh(cv) && cv[..] == v[..]
  {
    cv := new Byte[v.Length](i requires 0 <= i < v.Length reads v => v[i]);
  }

  /** Decoding allocates the array that it fills. */
  method DecodedBytes(bytes: F.Blob) returns (value: array<Byte>)
    ensures fresh(value) && value[..] == bytes
  {
    value := new Byte[|bytes|](i requires 0 <= i < |bytes| => bytes[i]);
  }

  /** What is sent of an input: the value is copied, a deletion has none. */
  method CloneInput(op: int, key: string, value: array<Byte>) returns (m: SentInput)
    ensures m.op == op && m.key == key && (m.value == null <==> op != F.SET)
    ensures m.value != null ==> fresh(m.value) && m.value[..] == value[..]
  {
    m := SentInput(op, key, null);
    if op == F.SET {
      var cv := CloneBytes(value);
      m := SentInput(op, key, cv);
    }
  }

  /** A copy of the state that shares no array with anything. */
  method CloneState(state: map<string, array<Byte>>) returns (clone: map<string, array<Byte>>)
    ensures fresh(clone.Values) && clone.Keys == state.Keys
    ensures forall k :: k in state ==> clone[k][..] == state[k][..]
  {
    clone := map[];
    var rest := state.Keys;
    while rest != {}
      invariant rest <= state.Keys
      invariant clone.Keys == state.Keys - rest
      invariant fresh(clone.Values)
      invariant forall k :: k in clone ==> clone[k][..] == state[k][..]
      decreases rest
    {
      var k :| k in rest;
      rest := rest - {k};
      var cv := CloneBytes(state[k]);
      assert clone[k := cv].Values <= clone.Values + {cv};
      clone := clone[k := cv];
    }
  }

  /** The i-th message on channel c. */
  datatype Place = Place(c: Chan, i: nat)

  /** A message is the given input, its value apart: that is an array of its own. */
  predicate Resembles(m: SentInput, input: F.Input) {
    m.op == input.op && m.key == input.key && (m.value == null <==> input.op != F.SET)
  }

  predicate MirrorsOn(messages: seq<SentInput>, stream: seq<F.Input>) {
    |messages| == |stream| && forall i :: 0 <= i < |messages| ==> Resembles(messages[i], stream[i])
  }

  /** The messages on every channel are the inputs of its stream, in that order. */
  ghost predicate Mirrors(sent: map<Chan, seq<SentInput>>, streams: map<Chan, seq<F.Input>>) {
    && sent.Keys == streams.Keys
    && forall c {:trigger MirrorsOn(sent[c], streams[c])} :: c in sent ==> MirrorsOn(sent[c], streams[c])
  }

  ghost predicate OwnArraysOn(messages: seq<SentInput>, c: Chan, places: map<array<Byte>, Place>) {
    forall i :: 0 <= i < |messages| && messages[i].value != null ==>
      messages[i].value in places && places[messages[i].value] == Place(c, i)
  }

  /** No array is in two messages: the place of each is known. */
  ghost predicate OwnArrays(sent: map<Chan, seq<SentInput>>, places: map<array<Byte>, Place>) {
    forall c {:trigger OwnArraysOn(sent[c], c, places)} :: c in sent ==> OwnArraysOn(sent[c], c, places)
  }

  ghost predicate DeliveredOn(before: seq<SentInput>, messages: seq<SentInput>, stream: seq<F.Input>,
                              arrays: set<array<Byte>>)
    reads arrays
  {
    && before <= messages && |messages| == |stream|
    && forall i :: |before| <= i < |messages| && messages[i].value != null ==>
         messages[i].value in arrays && messages[i].value[..] == stream[i].value
  }

  /** From before to sent, messages were only appended, and the arrays of the new ones
      are new and hold the values of the stream. */
  ghost predicate Delivered(before: map<Chan, seq<SentInput>>, sent: map<Chan, seq<SentInput>>,
                            streams: map<Chan, seq<F.Input>>, arrays: set<array<Byte>>)
    reads arrays
  {
    && before.Keys == sent.Keys == streams.Keys
    && forall c {:trigger DeliveredOn(before[c], sent[c], streams[c], arrays)} :: c in sent ==>
         DeliveredOn(before[c], sent[c], streams[c], arrays)
  }

  lemma DeliveredNothing(sent: map<Chan, seq<SentInput>>, streams: map<Chan, seq<F.Input>>)
    requires Mirrors(sent, streams)
    ensures Delivered(sent, sent, streams, {})
  {
    forall c | c in sent
      ensures DeliveredOn(sent[c], sent[c], streams[c], {})
    {
      assert MirrorsOn(sent[c], streams[c]);
    }
  }

  lemma DeliveredTwiceOn(a: seq<SentInput>, b: seq<SentInput>, stream: seq<F.Input>, first: set<array<Byte>>,
                         c: seq<SentInput>, stream': seq<F.Input>, second: set<array<Byte>>)
    requires DeliveredOn(a, b, stream, first) && DeliveredOn(b, c, stream', second) && stream <= stream'
    ensures DeliveredOn(a, c, stream', first + second)
  {
    forall i | |a| <= i < |c| && c[i].value != null
      ensures c[i].value in first + second && c[i].value[..] == stream'[i].value
    {
      assert i < |b| ==> c[i] == b[i] && stream'[i] == stream[i];
    }
  }

  /** Deliveries add up: what was delivered first stays as it was. */
  lemma DeliveredTwice(a: map<Chan, seq<SentInput>>, b: map<Chan, seq<SentInput>>, streams: map<Chan, seq<F.Input>>,
                       first: set<array<Byte>>, c: map<Chan, seq<SentInput>>, streams': map<Chan, seq<F.Input>>,
                       second: set<array<Byte>>)
    requires Delivered(a, b, streams, first) && Delivered(b, c, streams', second)
    requires forall ch :: ch in streams ==> ch in streams' && streams[ch] <= streams'[ch]
    ensures Delivered(a, c, streams', first + second)
  {
    forall ch | ch in c
      ensures DeliveredOn(a[ch], c[ch], streams'[ch], first + second)
    {
      DeliveredTwiceOn(a[ch], b[ch], streams[ch], first, c[ch], streams'[ch], second);
    }
  }

  lemma DeliveredOne(sent: map<Chan, seq<SentInput>>, streams: map<Chan, seq<F.Input>>,
                     c: Chan, m: SentInput, input: F.Input, arrays: set<array<Byte>>)
    requires Mirrors(sent, streams) && c in sent
    requires m.value != null ==> m.value in arrays && m.value[..] == input.value
    ensures Delivered(sent, sent[c := sent[c] + [m]], streams[c := streams[c] + [input]], arrays)
  {
    var sent', streams' := sent[c := sent[c] + [m]], streams[c := streams[c] + [input]];
    forall d | d in sent'
      ensures DeliveredOn(sent[d], sent'[d], streams'[d], arrays)
    {
      assert MirrorsOn(sent[d], streams[d]);
    }
  }

  ghost predicate HeldAt(state: map<string, array<Byte>>, contents: F.State, k: string)
    requires k in state && k in contents
    reads state.Values
  {
    contents[k] == state[k][..]
  }

  /** The arrays of the state hold its contents, and none of them was given away. */
  ghost predicate StateHeld(state: map<string, array<Byte>>, contents: F.State, given: set<array<Byte>>)
    reads state.Values
  {
    && contents.Keys == state.Keys
    && (forall k {:trigger HeldAt(state, contents, k)} :: k in state ==> HeldAt(state, contents, k))
    && state.Values !! given
  }

  lemma StateSet(state: map<string, array<Byte>>, contents: F.State, given: set<array<Byte>>,
                 key: string, value: array<Byte>)
    requires StateHeld(state, contents, given) && value !in given
    ensures StateHeld(state[key := value], contents[key := value[..]], given)
  {
    var state', contents' := state[key := value], contents[key := value[..]];
    assert state'.Values <= state.Values + {value};
    forall k | k in state'
      ensures HeldAt(state', contents', k)
    {
      assert k != key ==> HeldAt(state, contents, k);
    }
  }

  lemma StateDeleted(state: map<string, array<Byte>>, contents: F.State, given: set<array<Byte>>, key: string)
    requires StateHeld(state, contents, given)
    ensures StateHeld(state - {key}, contents - {key}, given)
  {
    forall k | k in state - {key}
      ensures HeldAt(state - {key}, contents - {key}, k)
    {
      assert HeldAt(state, contents, k);
    }
  }

  ghost predicate OnChannels(observers: map<nat, Chan>, channels: set<Chan>) {
    forall id {:trigger observers[id]} :: id in observers ==> observers[id] in channels
  }

  ghost predicate MessagesHeld(observers: map<nat, Chan>, sent: map<Chan, seq<SentInput>>,
                               streams: map<Chan, seq<F.Input>>, places: map<array<Byte>, Place>,
                               given: set<array<Byte>>)
  {
    && OnChannels(observers, sent.Keys)
    && Injective(observers)
    && Mirrors(sent, streams)
    && OwnArrays(sent, places)
    && places.Keys <= given
  }

  lemma ChannelOpened(observers: map<nat, Chan>, sent: map<Chan, seq<SentInput>>, streams: map<Chan, seq<F.Input>>,
                      places: map<array<Byte>, Place>, given: set<array<Byte>>, id: nat, c: Chan)
    requires MessagesHeld(observers, sent, streams, places, given) && c !in sent
    ensures MessagesHeld(observers[id := c], sent[c := []], streams[c := []], places, given)
  {
    var sent', streams' := sent[c := []], streams[c := []];
    forall d | d in sent'
      ensures MirrorsOn(sent'[d], streams'[d]) && OwnArraysOn(sent'[d], d, places)
    {
      assert d != c ==> MirrorsOn(sent[d], streams[d]) && OwnArraysOn(sent[d], d, places);
    }
  }

  function ArraysOf(m: SentInput): set<array<Byte>> {
    if m.value == null then {} else {m.value}
  }

  function Placed(places: map<array<Byte>, Place>, m: SentInput, p: Place): map<array<Byte>, Place> {
    if m.value == null then places else places[m.value := p]
  }

  lemma MirrorsSnoc(sent: map<Chan, seq<SentInput>>, streams: map<Chan, seq<F.Input>>,
                    c: Chan, m: SentInput, input: F.Input)
    requires Mirrors(sent, streams) && c in sent && Resembles(m, input)
    ensures Mirrors(sent[c := sent[c] + [m]], streams[c := streams[c] + [input]])
  {
    var sent', streams' := sent[c := sent[c] + [m]], streams[c := streams[c] + [input]];
    forall d | d in sent'
      ensures MirrorsOn(sent'[d], streams'[d])
    {
      assert MirrorsOn(sent[d], streams[d]);
    }
  }

  lemma OwnArraysSnoc(sent: map<Chan, seq<SentInput>>, places: map<array<Byte>, Place>, c: Chan, m: SentInput)
    requires OwnArrays(sent, places) && c in sent && (m.value != null ==> m.value !in places)
    ensures OwnArrays(sent[c := sent[c] + [m]], Placed(places, m, Place(c, |sent[c]|)))
  {
    var sent', places' := sent[c := sent[c] + [m]], Placed(places, m, Place(c, |sent[c]|));
    forall d | d in sent'
      ensures OwnArraysOn(sent'[d], d, places')
    {
      assert OwnArraysOn(sent[d], d, places);
    }
  }

  /** One message more, in a place of its own. */
  lemma MessageAppended(observers: map<nat, Chan>, sent: map<Chan, seq<SentInput>>, streams: map<Chan, seq<F.Input>>,
                        places: map<array<Byte>, Place>, given: set<array<Byte>>,
                        c: Chan, m: SentInput, input: F.Input)
    requires MessagesHeld(observers, sent, streams, places, given) && c in sent
    requires Resembles(m, input) && (m.value != null ==> m.value !in given)
    ensures MessagesHeld(observers, sent[c := sent[c] + [m]], streams[c := streams[c] + [input]],
                         Placed(places, m, Place(c, |sent[c]|)), given + ArraysOf(m))
  {
    MirrorsSnoc(sent, streams, c, m, input);
    OwnArraysSnoc(sent, places, c, m);
  }

  /** The streams when the first i keys have been replayed on channel c. */
  ghost function ReplayedTo(streams: map<Chan, seq<F.Input>>, c: Chan, s: F.State, keys: seq<string>, i: nat):
    map<Chan, seq<F.Input>>
    requires c in streams && i <= |keys|
  {
    streams[c := streams[c] + F.Replayed(s, keys[..i])]
  }

  /** The streams when the first i channels have been sent the input. */
  ghost function SentTo(streams: map<Chan, seq<F.Input>>, cs: seq<Chan>, i: nat, input: F.Input):
    map<Chan, seq<F.Input>>
    requires i <= |cs|
    decreases i
  {
    if i == 0 then streams
    else
      var before := SentTo(streams, cs, i - 1, input);
      if cs[i - 1] in before then before[cs[i - 1] := before[cs[i - 1]] + [input]] else before
  }

  ghost function FirstOf(cs: seq<Chan>, i: nat): set<Chan>
    requires i <= |cs|
  {
    set j | 0 <= j < i :: cs[j]
  }

  lemma ListedChannels(observers: map<nat, Chan>, channels: set<Chan>, cs: seq<Chan>)
    requires OnChannels(observers, channels) && Lists(cs, observers.Values)
    ensures observers.Values <= channels && forall j :: 0 <= j < |cs| ==> cs[j] in channels
  {
    forall c | c in observers.Values
      ensures c in channels
    {
      var id :| id in observers && observers[id] == c;
    }
    assert forall j :: 0 <= j < |cs| ==> cs[j] in observers.Values;
  }

  lemma {:induction false} SentToIsBroadcast(streams: map<Chan, seq<F.Input>>, cs: seq<Chan>, i: nat, input: F.Input)
    requires i <= |cs| && Distinct(cs) && forall j :: 0 <= j < |cs| ==> cs[j] in streams
    ensures SentTo(streams, cs, i, input) == Broadcast(streams, FirstOf(cs, i), [input])
    decreases i
  {
    if i == 0 {
      BroadcastToNobody(streams, [input]);
      assert FirstOf(cs, 0) == {};
    } else {
      SentToIsBroadcast(streams, cs, i - 1, input);
      assert FirstOf(cs, i) == FirstOf(cs, i - 1) + {cs[i - 1]};
      BroadcastOneMore(streams, FirstOf(cs, i - 1), cs[i - 1], [input]);
    }
  }

  lemma SentToAll(streams: map<Chan, seq<F.Input>>, cs: seq<Chan>, to: set<Chan>, input: F.Input)
    requires Lists(cs, to) && to <= streams.Keys
    ensures SentTo(streams, cs, |cs|, input) == Broadcast(streams, to, [input])
  {
    assert forall j :: 0 <= j < |cs| ==> cs[j] in to;
    SentToIsBroadcast(streams, cs, |cs|, input);
    assert FirstOf(cs, |cs|) == to by {
      assert forall c :: c in to ==> c in cs;
    }
  }

  lemma ReplayedToNext(streams: map<Chan, seq<F.Input>>, c: Chan, s: F.State, keys: seq<string>, i: nat)
    requires c in streams && i < |keys| && keys[i] in s
    ensures var before := ReplayedTo(streams, c, s, keys, i);
            ReplayedTo(streams, c, s, keys, i + 1) == before[c := before[c] + [F.Input(F.SET, keys[i], s[keys[i]])]]
  {
    F.ReplayedSnoc(streams[c], s, keys[..i], keys[i]);
    assert keys[..i] + [keys[i]] == keys[..i + 1];
  }

  lemma ReplayedToTells(streams: map<Chan, seq<F.Input>>, c: Chan, s: F.State, keys: seq<string>)
    requires c in streams && F.Enumerates(keys, s)
    ensures F.ToldState(streams[c], ReplayedTo(streams, c, s, keys, |keys|)[c], s, keys)
  {
    assert keys[..|keys|] == keys;
    F.ReplayTellsState(streams[c], s, keys);
  }

  lemma ReplayedToEnds(streams: map<Chan, seq<F.Input>>, c: Chan, s: F.State, keys: seq<string>)
    requires c in streams
    ensures ReplayedTo(streams, c, s, keys, 0) == streams
    ensures ReplayedTo(streams, c, s, keys, |keys|) == streams[c := streams[c] + F.Replayed(s, keys)]
  {
    assert keys[..0] == [] && keys[..|keys|] == keys && streams[c] + [] == streams[c];
  }

  class RaftFsm {
    var state: map<string, array<Byte>>
    var observers: map<nat, Chan>
    var nextObserverId: nat
    var sent: map<Chan, seq<SentInput>>

    /** The bytes behind the arrays of the state. */
    ghost var contents: F.State
    /** The inputs that the messages on each channel stood for when they were sent;
        their receivers may since have overwritten the arrays. */
    ghost var streams: map<Chan, seq<F.Input>>
    /** Every array handed to an observer or a snapshot so far. */
    ghost var given: set<array<Byte>>
    /** The place of every array that is in a message. */
    ghost var places: map<array<Byte>, Place>

    ghost predicate Valid()
      reads this, state.Values
    {
      StateHeld(state, contents, given) && MessagesHeld(observers, sent, streams, places, given)
    }

    /** The state of a run, the owed replays and the closed channels being given. */
    ghost function Abs(unreplayed: set<Chan>, closed: set<Chan>): F.System
      reads this
    {
      F.System(contents, observers, nextObserverId, streams, unreplayed, closed)
    }

    constructor ()
      ensures Valid() && Abs({}, {}) == F.INITIAL && sent == map[] && given == {}
    {
      state, observers, nextObserverId, sent := map[], map[], 0, map[];
      contents, streams, given, places := map[], map[], {}, map[];
    }

    /** Registers a new channel; the replay of the state runs later. */
    method AddStateChangeObserver(c: Chan) returns (id: nat)
      requires Valid() && c !in sent
      modifies this
      ensures Valid() && contents == old(contents) && given == old(given)
      ensures id == nextObserverId == old(nextObserverId) + 1
      ensures observers == old(observers)[id := c]
      ensures sent == old(sent)[c := []] && streams == old(streams)[c := []]
      ensures forall u, cl :: F.Next(old(Abs(u, cl)), F.AddObserver(c), Abs(u + {c}, cl))
    {
      nextObserverId := nextObserverId + 1;
      ChannelOpened(observers, sent, streams, places, given, nextObserverId, c);
      observers := observers[nextObserverId := c];
      sent, streams := sent[c := []], streams[c := []];
      id := nextObserverId;
    }

    /** The channel takes a message, the arrays of which nobody else holds. */
    method Put(c: Chan, m: SentInput, ghost input: F.Input)
      requires Valid() && c in sent && Resembles(m, input) && ArraysOf(m) !! given + state.Values
      modifies this`sent, this`streams, this`given, this`places
      ensures Valid() && given == old(given) + ArraysOf(m)
      ensures sent == old(sent)[c := old(sent)[c] + [m]]
      ensures streams == old(streams)[c := old(streams)[c] + [input]]
    {
      MessageAppended(observers, sent, streams, places, given, c, m, input);
      assert StateHeld(state, contents, given + ArraysOf(m));
      places := Placed(places, m, Place(c, |sent[c]|));
      sent, streams := sent[c := sent[c] + [m]], streams[c := streams[c] + [input]];
      given := given + ArraysOf(m);
    }

    /** Sends one input on one channel, with a value array of its own. */
    method Send(c: Chan, op: int, key: string, value: array<Byte>)
      requires Valid() && c in sent
      modifies this`sent, this`streams, this`given, this`places
      ensures Valid() && fresh(given - old(given)) && given >= old(given)
      ensures streams == old(streams)[c := old(streams)[c] + [F.Input(op, key, if op == F.SET then value[..] else [])]]
      ensures Delivered(old(sent), sent, streams, given - old(given))
    {
      ghost var input := F.Input(op, key, if op == F.SET then value[..] else []);
      var message := CloneInput(op, key, value);
      DeliveredOne(sent, streams, c, message, input, ArraysOf(message));
      Put(c, message, input);
      assert given - old(given) == ArraysOf(message);
    }

    /** Sends one more input after those sent since the given state of affairs. */
    method SendNext(c: Chan, op: int, key: string, value: array<Byte>,
                    ghost start: map<Chan, seq<SentInput>>, ghost givenBefore: set<array<Byte>>)
      requires Valid() && c in sent && givenBefore <= given
      requires Delivered(start, sent, streams, given - givenBefore)
      modifies this`sent, this`streams, this`given, this`places
      ensures Valid() && fresh(given - old(given)) && given >= old(given)
      ensures streams == old(streams)[c := old(streams)[c] + [F.Input(op, key, if op == F.SET then value[..] else [])]]
      ensures Delivered(start, sent, streams, given - givenBefore)
    {
      ghost var sentSoFar, streamsSoFar, givenSoFar := sent, streams, given;
      Send(c, op, key, value);
      DeliveredTwice(start, sentSoFar, streamsSoFar, givenSoFar - givenBefore, sent, streams, given - givenSoFar);
      assert (givenSoFar - givenBefore) + (given - givenSoFar) == given - givenBefore;
    }

    /** Replays the i-th key, those before it having been replayed since start. */
    method ReplayKey(c: Chan, keys: seq<string>, i: nat,
                     ghost start: map<Chan, seq<SentInput>>, ghost begun: map<Chan, seq<F.Input>>,
                     ghost givenBefore: set<array<Byte>>)
      requires Valid() && c in sent && c in begun && i < |keys| && keys[i] in state && givenBefore <= given
      requires streams == ReplayedTo(begun, c, contents, keys, i)
      requires Delivered(start, sent, streams, given - givenBefore)
      modifies this`sent, this`streams, this`given, this`places
      ensures Valid() && fresh(given - old(given)) && given >= old(given)
      ensures streams == ReplayedTo(begun, c, contents, keys, i + 1)
      ensures Delivered(start, sent, streams, given - givenBefore)
    {
      ReplayedToNext(begun, c, contents, keys, i);
      assert HeldAt(state, contents, keys[i]);
      SendNext(c, F.SET, keys[i], state[keys[i]], start, givenBefore);
    }

    /** Replays the given keys. */
    method ReplayAll(c: Chan, keys: seq<string>)
      requires Valid() && c in sent && forall j :: 0 <= j < |keys| ==> keys[j] in state
      modifies this`sent, this`streams, this`given, this`places
      ensures Valid() && fresh(given - old(given)) && given >= old(given)
      ensures streams == ReplayedTo(old(streams), c, contents, keys, |keys|)
      ensures Delivered(old(sent), sent, streams, given - old(given))
    {
      var i := 0;
      ghost var start, begun, before := sent, streams, given;
      DeliveredNothing(start, begun);
      ReplayedToEnds(begun, c, contents, keys);
      assert given - before == {};
      while i < |keys|
        invariant 0 <= i <= |keys|
        invariant Valid() && fresh(given - before) && given >= before
        invariant streams == ReplayedTo(begun, c, contents, keys, i)
        invariant Delivered(start, sent, streams, given - before)
      {
        ReplayKey(c, keys, i, start, begun, before);
        i := i + 1;
      }
    }

    /** The deferred part of AddStateChangeObserver. */
    method Replay(c: Chan) returns (ghost keys: seq<string>)
      requires Valid() && c in sent
      modifies this`sent, this`streams, this`given, this`places
      ensures Valid() && fresh(given - old(given)) && given >= old(given)
      ensures F.Enumerates(keys, contents)
      ensures streams == old(streams)[c := old(streams)[c] + F.Replayed(contents, keys)]
      ensures F.ToldState(old(streams)[c], streams[c], contents, keys)
      ensures Delivered(old(sent), sent, streams, given - old(given))
      ensures forall u, cl :: c in u ==> F.Next(old(Abs(u, cl)), F.Replay(c), Abs(u - {c}, cl))
    {
      var order := SomeOrder(state.Keys);
      assert forall j :: 0 <= j < |order| ==> order[j] in state.Keys;
      ReplayedToEnds(streams, c, contents, order);
      ReplayedToTells(streams, c, contents, order);
      ReplayAll(c, order);
      keys := order;
      forall u, cl | c in u
        ensures F.Next(old(Abs(u, cl)), F.Replay(c), Abs(u - {c}, cl))
      {
        F.ReplayIsStep(old(Abs(u, cl)), c, keys, Abs(u - {c}, cl));
      }
    }

    method RemoveStateChangeObserver(id: nat)
      requires Valid()
      modifies this`observers
      ensures Valid() && observers == old(observers) - {id}
      ensures forall u, cl :: F.Next(old(Abs(u, cl)), F.RemoveObserver(id), Abs(u, cl))
    {
      observers := observers - {id};
    }

    /** Sends the input to the i-th channel, those before it having been sent it. */
    method SendToObserver(cs: seq<Chan>, i: nat, op: int, key: string, value: array<Byte>, ghost input: F.Input,
                          ghost start: map<Chan, seq<SentInput>>, ghost begun: map<Chan, seq<F.Input>>,
                          ghost givenBefore: set<array<Byte>>)
      requires Valid() && i < |cs| && cs[i] in sent && givenBefore <= given
      requires input == F.Input(op, key, if op == F.SET then value[..] else [])
      requires streams == SentTo(begun, cs, i, input)
      requires Delivered(start, sent, streams, given - givenBefore)
      modifies this`sent, this`streams, this`given, this`places
      ensures Valid() && fresh(given - old(given)) && given >= old(given)
      ensures streams == SentTo(begun, cs, i + 1, input)
      ensures Delivered(start, sent, streams, given - givenBefore)
    {
      SendNext(cs[i], op, key, value, start, givenBefore);
    }

    /** Sends the input to every given channel. */
    method SendToAll(cs: seq<Chan>, op: int, key: string, value: array<Byte>, ghost input: F.Input)
      requires Valid() && forall j :: 0 <= j < |cs| ==> cs[j] in sent
      requires input == F.Input(op, key, if op == F.SET then value[..] else [])
      modifies this`sent, this`streams, this`given, this`places
      ensures Valid() && fresh(given - old(given)) && given >= old(given)
      ensures streams == SentTo(old(streams), cs, |cs|, input)
      ensures Delivered(old(sent), sent, streams, given - old(given))
    {
      var i := 0;
      DeliveredNothing(sent, streams);
      assert given - old(given) == {};
      while i < |cs|
        invariant 0 <= i <= |cs|
        invariant Valid() && fresh(given - old(given)) && given >= old(given)
        invariant input == F.Input(op, key, if op == F.SET then value[..] else [])
        invariant streams == SentTo(old(streams), cs, i, input)
        invariant Delivered(old(sent), sent, streams, given - old(given))
      {
        SendToObserver(cs, i, op, key, value, input, old(sent), old(streams), old(given));
        i := i + 1;
      }
    }

    method SendStateChange(op: int, key: string, value: array<Byte>)
      requires Valid() && op in {F.SET, F.DELETE}
      modifies this`sent, this`streams, this`given, this`places
      ensures Valid() && fresh(given - old(given)) && given >= old(given)
      ensures streams == Broadcast(old(streams), observers.Values, F.Emission(Some(F.Input(op, key, value[..]))))
      ensures F.Told(old(streams), streams, observers.Values, [F.Input(op, key, if op == 1 then value[..] else [])])
      ensures Delivered(old(sent), sent, streams, given - old(given))
    {
      ghost var input := F.Input(op, key, if op == F.SET then value[..] else []);
      assert F.Emission(Some(F.Input(op, key, value[..]))) == [input];
      F.BroadcastTells(streams, observers.Values, [input]);
      var cs := SomeOrder(observers.Values);
      ListedChannels(observers, sent.Keys, cs);
      SentToAll(streams, cs, observers.Values, input);
      SendToAll(cs, op, key, value, input);
    }

    method ApplySet(key: string, value: array<Byte>)
      requires Valid() && value !in given
      modifies this`state, this`contents, this`sent, this`streams, this`given, this`places
      ensures Valid() && fresh(given - old(given)) && given >= old(given)
      ensures contents == old(contents)[key := value[..]]
      ensures streams == Broadcast(old(streams), observers.Values, F.Emission(Some(F.Input(F.SET, key, value[..]))))
      ensures Delivered(old(sent), sent, streams, given - old(given))
    {
      StateSet(state, contents, given, key, value);
      state, contents := state[key := value], contents[key := value[..]];
      SendStateChange(F.SET, key, value);
    }

    method ApplyDelete(key: string, value: array<Byte>)
      requires Valid()
      modifies this`state, this`contents, this`sent, this`streams, this`given, this`places
      ensures Valid() && fresh(given - old(given)) && given >= old(given)
      ensures contents == old(contents) - {key}
      ensures streams == Broadcast(old(streams), observers.Values, F.Emission(Some(F.Input(F.DELETE, key, value[..]))))
      ensures Delivered(old(sent), sent, streams, given - old(given))
    {
      StateDeleted(state, contents, given, key);
      state, contents := state - {key}, contents - {key};
      SendStateChange(F.DELETE, key, value);
    }

    /** Applies a committed entry. Decoding allocates the value array. Setting (operation 1)
        and deleting (2) change the state at one key and are told once to every observer;
        no operation (0) changes nothing; data that is no input, or names another
        operation, is an error and changes nothing. */
    method Apply(entry: F.Entry) returns (r: F.ApplyResult)
      requires Valid()
      modifies this`state, this`contents, this`sent, this`streams, this`given, this`places
      ensures Valid() && fresh(given - old(given)) && given >= old(given)
      ensures contents == F.ApplyEntry(old(contents), entry)
      ensures streams == Broadcast(old(streams), observers.Values, F.Emission(entry))
      ensures Delivered(old(sent), sent, streams, given - old(given))
      ensures forall u, cl :: F.Next(old(Abs(u, cl)), F.Apply(entry), Abs(u, cl))
      ensures entry.None? ==> r == F.DecodeError && contents == old(contents) && streams == old(streams)
      ensures entry.Some? && entry.value.op == 0 ==>
                r == F.Applied && contents == old(contents) && streams == old(streams)
      ensures entry.Some? && entry.value.op == 1 ==>
                && r == F.Applied && contents == old(contents)[entry.value.key := entry.value.value]
                && F.Told(old(streams), streams, observers.Values,
                          [F.Input(1, entry.value.key, entry.value.value)])
      ensures entry.Some? && entry.value.op == 2 ==>
                && r == F.Applied && contents == old(contents) - {entry.value.key}
                && F.Told(old(streams), streams, observers.Values, [F.Input(2, entry.value.key, [])])
      ensures entry.Some? && entry.value.op !in {0, 1, 2} ==>
                r == F.UnknownOperation(entry.value.op) && contents == old(contents) && streams == old(streams)
    {
      BroadcastNothing(streams, observers.Values);
      DeliveredNothing(sent, streams);
      assert given - old(given) == {};
      F.BroadcastTells(streams, observers.Values, F.Emission(entry));
      if entry.None? {
        return F.DecodeError;
      }
      var input := entry.value;
      var value := DecodedBytes(input.value);
      if input.op == F.UNDEFINED {
        return F.Applied;
      } else if input.op == F.SET {
        ApplySet(input.key, value);
        return F.Applied;
      } else if input.op == F.DELETE {
        ApplyDelete(input.key, value);
        return F.Applied;
      } else {
        return F.UnknownOperation(input.op);
      }
    }

    method Snapshot() returns (snapshot: FsmSnapshot)
      requires Valid()
      modifies this`given
      ensures Valid() && given == old(given) + snapshot.state.Values
      ensures fresh(snapshot.state.Values)
      ensures snapshot.Contents() == contents
    {
      var clone := CloneState(state);
      assert forall k :: k in state ==> HeldAt(state, contents, k);
      snapshot := FsmSnapshot(clone);
      given := given + clone.Values;
    }

    /** Restore from what a snapshot persisted; None if it cannot be decoded.
        Decoding allocates every value array. Observers are told nothing. */
    method Restore(persisted: Option<F.State>) returns (ok: bool)
      requires Valid()
      modifies this`state, this`contents
      ensures Valid() && ok == persisted.Some?
      ensures contents == if ok then persisted.value else old(contents)
      ensures forall u, cl :: ok ==> F.Next(old(Abs(u, cl)), F.Restore(persisted.value), Abs(u, cl))
    {
      if persisted.None? {
        return false;
      }
      var decoded: map<string, array<Byte>> := map[];
      var rest := persisted.value.Keys;
      while rest != {}
        invariant rest <= persisted.value.Keys
        invariant decoded.Keys == persisted.value.Keys - rest
        invariant fresh(decoded.Values)
        invariant forall k :: k in decoded ==> decoded[k][..] == persisted.value[k]
        decreases rest
      {
        var k :| k in rest;
        rest := rest - {k};
        var value := DecodedBytes(persisted.value[k]);
        assert decoded[k := value].Values <= decoded.Values + {value};
        decoded := decoded[k := value];
      }
      state, contents := decoded, persisted.value;
      ok := true;
    }
  }

  /** No two messages, on whichever channels, share a value array. */
  lemma MessagesShareNoArray(fsm: RaftFsm, c: Chan, i: nat, d: Chan, j: nat)
    requires fsm.Valid() && c in fsm.sent && d in fsm.sent && i < |fsm.sent[c]| && j < |fsm.sent[d]|
    requires fsm.sent[c][i].value != null && fsm.sent[c][i].value == fsm.sent[d][j].value
    ensures c == d && i == j
  {
    assert OwnArraysOn(fsm.sent[c], c, fsm.places) && OwnArraysOn(fsm.sent[d], d, fsm.places);
  }

  /** A receiver may write whatever it likes into an input it was sent, and the
      owner of a snapshot into the snapshot: the machine does not notice. */
  method WriteIntoGiven(fsm: RaftFsm, a: array<Byte>, i: nat, b: Byte)
    requires fsm.Valid() && a in fsm.given && i < a.Length
    modifies a
    ensures fsm.Valid() && fsm.contents == old(fsm.contents)
  {
    a[i] := b;
    assert forall k :: k in fsm.state ==> fsm.state[k] in fsm.state.Values;
  }

  /** Applies committed entries in order. */
  method ApplyEntries(fsm: RaftFsm, entries: seq<F.Entry>)
    requires fsm.Valid()
    modifies fsm
    ensures fsm.Valid() && fsm.contents == F.ApplyAll(old(fsm.contents), entries)
  {
    var i := 0;
    assert entries[..0] == [];
    while i < |entries|
      invariant 0 <= i <= |entries|
      invariant fsm.Valid() && fsm.contents == F.ApplyAll(old(fsm.contents), entries[..i])
    {
      var r := fsm.Apply(entries[i]);
      assert entries[..i + 1][..i] == entries[..i];
      i := i + 1;
    }
    assert entries[..i] == entries;
  }

  /** Applying entries overwrites no array, so no snapshot either. */
  method ApplyThenPersist(fsm: RaftFsm, entries: seq<F.Entry>, snapshot: FsmSnapshot) returns (written: F.State)
    requires fsm.Valid()
    modifies fsm
    ensures fsm.Valid() && fsm.contents == F.ApplyAll(old(fsm.contents), entries)
    ensures written == old(snapshot.Contents())
  {
    ApplyEntries(fsm, entries);
    written := snapshot.Persist();
  }

  /** A snapshot that is persisted only after more entries have been applied still
      writes the state at which it was taken. */
  method PersistAfterMoreEntries(fsm: RaftFsm, entries: seq<F.Entry>) returns (written: F.State)
    requires fsm.Valid()
    modifies fsm
    ensures fsm.Valid()
    ensures written == old(fsm.contents)
    ensures fsm.contents == F.ApplyAll(old(fsm.contents), entries)
  {
    var snapshot := fsm.Snapshot();
    written := ApplyThenPersist(fsm, entries, snapshot);
  }
}
