/**
 The MQTT topics of the communication patterns: how they are printed, and what an
 incoming topic is parsed to.
 */
module Topics {
  import opened Streams
  import opened Wrappers

  datatype Scope = Default | Com | State | SideChannel

  datatype Level = Event | Action | ActionResult | Query | QueryResult

  const SHARE := "$share"

  predicate IsNameChar(c: char) {
    '0' <= c <= '9' || 'a' <= c <= 'z' || 'A' <= c <= 'Z' || c == '-' || c == '_' || c == '.'
  }

  predicate ValidName(s: string) {
    s != "" && forall i :: 0 <= i < |s| ==> IsNameChar(s[i])
  }

  function ScopeName(s: Scope): string {
    match s
    case Default => ""
    case Com => "com"
    case State => "sta"
    case SideChannel => "sdc"
  }

  function ToScope(s: string): Option<Scope> {
    if s == "" then Some(Com)
    else if s == "com" then Some(Com)
    else if s == "sta" then Some(State)
    else if s == "sdc" then Some(SideChannel)
    else None
  }

  function LevelName(l: Level): string {
    match l
    case Event => "evt"
    case Action => "act"
    case ActionResult => "acr"
    case Query => "qry"
    case QueryResult => "qrr"
  }

  function ToLevel(s: string): Option<Level> {
    if s == "evt" then Some(Event)
    else if s == "act" then Some(Action)
    else if s == "acr" then Some(ActionResult)
    else if s == "qry" then Some(Query)
    else if s == "qrr" then Some(QueryResult)
    else None
  }

  // ------------------------------------------------------ split and join

  function Split(s: string): (levels: seq<string>)
    ensures |levels| >= 1
  {
    if s == "" then [""]
    else if s[0] == '/' then [""] + Split(s[1..])
    else
      var rest := Split(s[1..]);
      [[s[0]] + rest[0]] + rest[1..]
  }

  function Join(levels: seq<string>): string
    requires |levels| >= 1
  {
    if |levels| == 1 then levels[0] else levels[0] + "/" + Join(levels[1..])
  }

  function Slashes(s: string): nat {
    if s == "" then 0 else (if s[0] == '/' then 1 else 0) + Slashes(s[1..])
  }

  lemma {:induction false} SplitLevel(a: string, rest: string)
    requires '/' !in a
    ensures Split(a + "/" + rest) == [a] + Split(rest)
  {
    if a == "" {
      assert ("" + "/" + rest)[1..] == rest;
    } else {
      SplitLevel(a[1..], rest);
      assert (a + "/" + rest)[1..] == a[1..] + "/" + rest;
      assert [a[0]] + a[1..] == a;
    }
  }

  lemma {:induction false} SplitName(a: string)
    requires '/' !in a
    ensures Split(a) == [a]
  {
    if a != "" {
      SplitName(a[1..]);
      assert [a[0]] + a[1..] == a;
    }
  }

  lemma JoinEmptyFirst(levels: seq<string>)
    requires |levels| >= 1
    ensures Join([""] + levels) == "/" + Join(levels)
  {
    assert ([""] + levels)[1..] == levels;
    assert "" + "/" == "/";
  }

  lemma JoinLongerFirst(c: char, levels: seq<string>)
    requires |levels| >= 1
    ensures Join([[c] + levels[0]] + levels[1..]) == [c] + Join(levels)
  {
    var longer := [[c] + levels[0]] + levels[1..];
    assert longer[0] == [c] + levels[0] && longer[1..] == levels[1..];
    if |levels| > 1 {
      Associative([c], levels[0], "/");
      Associative([c], levels[0] + "/", Join(levels[1..]));
    }
  }

  lemma {:induction false} JoinOfSplit(s: string)
    ensures Join(Split(s)) == s
  {
    if s != "" {
      JoinOfSplit(s[1..]);
      JoinEmptyFirst(Split(s[1..]));
      JoinLongerFirst(s[0], Split(s[1..]));
      assert [s[0]] + s[1..] == s;
    }
  }

  lemma {:induction false} LevelsAreSlashes(s: string)
    ensures |Split(s)| == Slashes(s) + 1
  {
    if s != "" {
      LevelsAreSlashes(s[1..]);
    }
  }

  // -------------------------------------------------------------- topics

  function Topic(cluster: string, scope: Scope, level: Level, typeName: string): string {
    cluster + "/" + ScopeName(Normal(scope)) + "/" + Join([LevelName(level), typeName])
  }

  /** The default scope is the communication scope. */
  function Normal(s: Scope): Scope {
    if s.Default? then Com else s
  }

  function SubscriptionTopic(share: string, cluster: string, scope: Scope, level: Level, typeName: string): string {
    if share == "" then Topic(cluster, scope, level, typeName)
    else SHARE + "/" + share + "/" + Topic(cluster, scope, level, typeName)
  }

  /** The id is the identity of the requesting DDA: any text, also with slashes. */
  function ResponseTopic(cluster: string, scope: Scope, level: Level, typeName: string, id: string): string {
    Topic(cluster, scope, level, typeName) + "/" + id
  }

  /** How an incoming topic is read. A topic of fewer than four levels makes the
      handler panic. */
  datatype Parsed = Panic | UnknownScope | Malformed | Addressed(scope: Scope, level: Level, typeName: string)

  function Parse(topic: string): Parsed {
    var levels := Split(topic);
    if |levels| < 4 then Panic
    else if ToScope(levels[1]).None? then UnknownScope
    else if ToLevel(levels[2]).None? then Malformed
    else Addressed(ToScope(levels[1]).value, ToLevel(levels[2]).value, levels[3])
  }

  lemma PanicsExactly(topic: string)
    ensures Parse(topic).Panic? <==> Slashes(topic) < 3
  {
    LevelsAreSlashes(topic);
  }

  lemma SplitThreeLevels(a: string, b: string, c: string, rest: string)
    requires '/' !in a && '/' !in b && '/' !in c
    ensures Split(a + "/" + (b + "/" + (c + "/" + rest))) == [a, b, c] + Split(rest)
  {
    SplitLevel(c, rest);
    SplitLevel(b, c + "/" + rest);
    SplitLevel(a, b + "/" + (c + "/" + rest));
    assert [a] + ([b] + ([c] + Split(rest))) == [a, b, c] + Split(rest);
  }

  lemma Regroup(a: string, b: string, rest: string)
    ensures a + "/" + b + "/" + rest == a + "/" + (b + "/" + rest)
  {
    Associative(a + "/" + b, "/", rest);
    Associative(a + "/", b, "/" + rest);
    Associative(b, "/", rest);
  }

  lemma SplitFourLevels(a: string, b: string, c: string, d: string)
    requires '/' !in a && '/' !in b && '/' !in c && '/' !in d
    ensures Split(a + "/" + b + "/" + (c + "/" + d)) == [a, b, c, d]
  {
    Regroup(a, b, c + "/" + d);
    SplitThreeLevels(a, b, c, d);
    SplitName(d);
    assert [a, b, c] + [d] == [a, b, c, d];
  }

  lemma SplitFourLevelsAndRest(a: string, b: string, c: string, d: string, id: string)
    requires '/' !in a && '/' !in b && '/' !in c && '/' !in d
    ensures Split(a + "/" + b + "/" + (c + "/" + d) + "/" + id) == [a, b, c, d] + Split(id)
  {
    Regroup(a + "/" + b, c + "/" + d, id);
    Regroup(c, d, id);
    Regroup(a, b, c + "/" + (d + "/" + id));
    SplitThreeLevels(a, b, c, d + "/" + id);
    SplitLevel(d, id);
    assert [a, b, c] + ([d] + Split(id)) == [a, b, c, d] + Split(id);
  }

  lemma TopicLevels(cluster: string, scope: Scope, level: Level, typeName: string)
    requires ValidName(cluster) && ValidName(typeName)
    ensures Split(Topic(cluster, scope, level, typeName))
            == [cluster, ScopeName(Normal(scope)), LevelName(level), typeName]
  {
    assert Join([LevelName(level), typeName]) == LevelName(level) + "/" + typeName;
    SplitFourLevels(cluster, ScopeName(Normal(scope)), LevelName(level), typeName);
  }

  lemma ResponseTopicLevels(cluster: string, scope: Scope, level: Level, typeName: string, id: string)
    requires ValidName(cluster) && ValidName(typeName)
    ensures Split(ResponseTopic(cluster, scope, level, typeName, id))
            == [cluster, ScopeName(Normal(scope)), LevelName(level), typeName] + Split(id)
  {
    assert Join([LevelName(level), typeName]) == LevelName(level) + "/" + typeName;
    SplitFourLevelsAndRest(cluster, ScopeName(Normal(scope)), LevelName(level), typeName, id);
  }

  /** Every printed topic is read back, with and without a response id. */
  lemma PrintedTopicIsRead(cluster: string, scope: Scope, level: Level, typeName: string, id: string)
    requires ValidName(cluster) && ValidName(typeName)
    ensures Parse(Topic(cluster, scope, level, typeName)) == Addressed(Normal(scope), level, typeName)
    ensures Parse(ResponseTopic(cluster, scope, level, typeName, id)) == Addressed(Normal(scope), level, typeName)
  {
    TopicLevels(cluster, scope, level, typeName);
    ResponseTopicLevels(cluster, scope, level, typeName, id);
    assert ToScope(ScopeName(Normal(scope))) == Some(Normal(scope));
    assert ToLevel(LevelName(level)) == Some(level);
  }

  /** The text of every topic that is published or subscribed. */
  lemma TopicsAreSpelled(share: string, cluster: string, scope: Scope, level: Level, typeName: string, id: string)
    ensures var scopes := map[Default := "com", Com := "com", State := "sta", SideChannel := "sdc"];
            var levels := map[Event := "evt", Action := "act", ActionResult := "acr", Query := "qry",
                              QueryResult := "qrr"];
            var topic := cluster + "/" + scopes[scope] + "/" + levels[level] + "/" + typeName;
            && Topic(cluster, scope, level, typeName) == topic
            && ResponseTopic(cluster, scope, level, typeName, id) == topic + "/" + id
            && SubscriptionTopic(share, cluster, scope, level, typeName)
               == if share == "" then topic else "$share/" + share + "/" + topic
  {
    var head := cluster + "/" + ScopeName(Normal(scope)) + "/";
    Associative(head, LevelName(level), "/" + typeName);
    Associative(head + LevelName(level), "/", typeName);
    Associative(LevelName(level), "/", typeName);
    assert Join([LevelName(level), typeName]) == LevelName(level) + "/" + typeName;
    assert "$share" + "/" == "$share/";
  }

  /** What the levels of an incoming topic mean: an empty scope is the default one. */
  lemma ReadExactly(topic: string, scope: Scope, level: Level, typeName: string)
    ensures Parse(topic) == Addressed(scope, level, typeName)
            <==> var levels := Split(topic);
                 && |levels| >= 4
                 && (levels[1], scope) in {("", Com), ("com", Com), ("sta", State), ("sdc", SideChannel)}
                 && (levels[2], level) in {("evt", Event), ("act", Action), ("acr", ActionResult), ("qry", Query),
                                           ("qrr", QueryResult)}
                 && levels[3] == typeName
  {
  }

  /** Messages of one cluster, scope, pattern and type share no topic with others. */
  lemma TopicIsInjective(c1: string, s1: Scope, l1: Level, t1: string, c2: string, s2: Scope, l2: Level, t2: string)
    requires ValidName(c1) && ValidName(t1) && ValidName(c2) && ValidName(t2)
    requires Topic(c1, s1, l1, t1) == Topic(c2, s2, l2, t2)
    ensures c1 == c2 && Normal(s1) == Normal(s2) && l1 == l2 && t1 == t2
  {
    TopicLevels(c1, s1, l1, t1);
    TopicLevels(c2, s2, l2, t2);
    PrintedTopicIsRead(c1, s1, l1, t1, "");
    PrintedTopicIsRead(c2, s2, l2, t2, "");
    assert [c1, ScopeName(Normal(s1)), LevelName(l1), t1][0] == [c2, ScopeName(Normal(s2)), LevelName(l2), t2][0];
  }

  /** Response topics are told apart by their ids too, and never taken for a topic
      without one. */
  lemma ResponseTopicIsInjective(c1: string, s1: Scope, l1: Level, t1: string, id1: string,
                                 c2: string, s2: Scope, l2: Level, t2: string, id2: string)
    requires ValidName(c1) && ValidName(t1) && ValidName(c2) && ValidName(t2)
    ensures ResponseTopic(c1, s1, l1, t1, id1) == ResponseTopic(c2, s2, l2, t2, id2) <==>
            c1 == c2 && Normal(s1) == Normal(s2) && l1 == l2 && t1 == t2 && id1 == id2
    ensures ResponseTopic(c1, s1, l1, t1, id1) != Topic(c2, s2, l2, t2)
  {
    var head1 := [c1, ScopeName(Normal(s1)), LevelName(l1), t1];
    var head2 := [c2, ScopeName(Normal(s2)), LevelName(l2), t2];
    ResponseTopicLevels(c1, s1, l1, t1, id1);
    ResponseTopicLevels(c2, s2, l2, t2, id2);
    TopicLevels(c2, s2, l2, t2);
    if ResponseTopic(c1, s1, l1, t1, id1) == ResponseTopic(c2, s2, l2, t2, id2) {
      PrintedTopicIsRead(c1, s1, l1, t1, id1);
      PrintedTopicIsRead(c2, s2, l2, t2, id2);
      assert c1 == (head1 + Split(id1))[0] == c2;
      assert Split(id1) == (head1 + Split(id1))[4..] == (head2 + Split(id2))[4..] == Split(id2);
      JoinOfSplit(id1);
      JoinOfSplit(id2);
    }
  }

  lemma SplitTwoLevels(a: string, b: string, rest: string)
    requires '/' !in a && '/' !in b
    ensures Split(a + "/" + b + "/" + rest) == [a, b] + Split(rest)
  {
    Regroup(a, b, rest);
    SplitLevel(b, rest);
    SplitLevel(a, b + "/" + rest);
    assert [a] + ([b] + Split(rest)) == [a, b] + Split(rest);
  }

  lemma ShareHasNoSlash()
    ensures '/' !in SHARE
  {
  }

  /** What a shared subscription adds is stripped by dropping two levels. */
  lemma SharedSubscriptionNamesTopic(share: string, cluster: string, scope: Scope, level: Level, typeName: string)
    requires ValidName(share)
    ensures Split(SubscriptionTopic(share, cluster, scope, level, typeName))
            == ["$share", share] + Split(Topic(cluster, scope, level, typeName))
  {
    ShareHasNoSlash();
    SplitTwoLevels(SHARE, share, Topic(cluster, scope, level, typeName));
  }

  // ------------------------------------------------------- what is received

  /** What the binding subscribes: a pattern, shared or not, or the results of its own
      requests. */
  datatype Subscription =
    | Pattern(share: string, scope: Scope, level: Level, typeName: string)
    | Results(scope: Scope, level: Level, typeName: string, id: string)

  predicate ValidSubscription(s: Subscription) {
    ValidName(s.typeName) && (s.Pattern? && s.share != "" ==> ValidName(s.share))
  }

  function FilterOf(cluster: string, s: Subscription): string {
    match s
    case Pattern(share, scope, level, typeName) => SubscriptionTopic(share, cluster, scope, level, typeName)
    case Results(scope, level, typeName, id) => ResponseTopic(cluster, scope, level, typeName, id)
  }

  /** Sections 4.7 and 4.8.2 of the MQTT Version 5.0 standard: a plus sign stands for
      one level, a number sign for all that are left, its parent included; a shared
      subscription is for the filter behind its first two levels. */
  predicate MatchesLevels(filter: seq<string>, topic: seq<string>) {
    if filter == [] then topic == []
    else if filter == ["#"] then true
    else topic != [] && (filter[0] == "+" || filter[0] == topic[0]) && MatchesLevels(filter[1..], topic[1..])
  }

  predicate Receives(filter: string, topic: string) {
    var levels := Split(filter);
    MatchesLevels(if levels[0] == "$share" && |levels| > 2 then levels[2..] else levels, Split(topic))
  }

  predicate Literal(level: string) {
    level != "+" && level != "#"
  }

  lemma {:induction false} LiteralsMatchThemselves(head: seq<string>, rest: seq<string>, topic: seq<string>)
    requires forall i :: 0 <= i < |head| ==> Literal(head[i])
    requires MatchesLevels(head + rest, topic)
    ensures |head| <= |topic| && topic[..|head|] == head
  {
    if head != [] {
      assert (head + rest)[0] == head[0] && (head + rest)[1..] == head[1..] + rest;
      assert head + rest != ["#"];
      LiteralsMatchThemselves(head[1..], rest, topic[1..]);
      assert topic[..|head|] == [topic[0]] + topic[1..][..|head| - 1];
      assert head == [head[0]] + head[1..];
    }
  }

  lemma FilterLevels(cluster: string, s: Subscription) returns (rest: seq<string>)
    requires ValidName(cluster) && ValidSubscription(s)
    ensures var levels := Split(FilterOf(cluster, s));
            (if levels[0] == "$share" && |levels| > 2 then levels[2..] else levels)
            == [cluster, ScopeName(Normal(s.scope)), LevelName(s.level), s.typeName] + rest
  {
    var head := [cluster, ScopeName(Normal(s.scope)), LevelName(s.level), s.typeName];
    assert cluster != SHARE by {
      assert SHARE[0] == '$';
    }
    TopicLevels(cluster, s.scope, s.level, s.typeName);
    rest := [];
    assert head + [] == head;
    match s
    case Pattern(share, scope, level, typeName) =>
      if share != "" {
        SharedSubscriptionNamesTopic(share, cluster, scope, level, typeName);
        assert ([SHARE, share] + head)[2..] == head;
      }
    case Results(scope, level, typeName, id) =>
      ResponseTopicLevels(cluster, scope, level, typeName, id);
      rest := Split(id);
  }

  lemma NamesAreLiteral(name: string, scope: Scope, level: Level)
    ensures ValidName(name) ==> Literal(name)
    ensures Literal(ScopeName(Normal(scope))) && Literal(LevelName(level))
  {
    assert ValidName(name) ==> IsNameChar(name[0]);
  }

  lemma LevelsAreRead(topic: string, cluster: string, scope: Scope, level: Level, typeName: string)
    requires |Split(topic)| >= 4
    requires Split(topic)[..4] == [cluster, ScopeName(Normal(scope)), LevelName(level), typeName]
    ensures Parse(topic) == Addressed(Normal(scope), level, typeName)
  {
    var levels := Split(topic);
    assert levels[1] == levels[..4][1] && levels[2] == levels[..4][2] && levels[3] == levels[..4][3];
    assert ToScope(ScopeName(Normal(scope))) == Some(Normal(scope));
    assert ToLevel(LevelName(level)) == Some(level);
  }

  /** Whatever a broker delivers for a subscription of the binding, also one whose
      response id has wildcards in it, is read as of the subscribed scope, level and
      type: it never makes the handler panic, and is never discarded. */
  lemma ReceivedTopicsAreRead(cluster: string, s: Subscription, topic: string)
    requires ValidName(cluster) && ValidSubscription(s) && Receives(FilterOf(cluster, s), topic)
    ensures Parse(topic) == Addressed(Normal(s.scope), s.level, s.typeName)
  {
    var head := [cluster, ScopeName(Normal(s.scope)), LevelName(s.level), s.typeName];
    var rest := FilterLevels(cluster, s);
    NamesAreLiteral(cluster, s.scope, s.level);
    NamesAreLiteral(s.typeName, s.scope, s.level);
    LiteralsMatchThemselves(head, rest, Split(topic));
    LevelsAreRead(topic, cluster, s.scope, s.level, s.typeName);
  }
}
