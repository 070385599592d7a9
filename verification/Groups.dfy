/** Partition logs, consumer groups, and how a group's partitions are dealt to its members. */
module Groups {
  import opened Common
  import opened CanonicalJson

  newtype Byte = x: int | 0 <= x < 256

  /** Header names: the ones a dead letter adds, and everything a producer wrote. */
  datatype Header =
    | DltReason | DltError | DltErrorType | DltAttempts | DltGroup
    | DltOriginTopic | DltOriginPartition | DltOriginOffset | DltFailedAt
    | Producer(name: string)

  datatype Record = Record(key: Option<string>, value: seq<Byte>, headers: map<Header, string>)

  /** `topic#partition`. */
  datatype Key = Key(topic: string, partition: nat)

  /** Append-only logs, one per partition of each topic. */
  type Logs = map<string, seq<seq<Record>>>

  datatype Member = Member(
    topics: seq<string>,
    fromBeginning: bool,
    holds: seq<Key>,
    /** The keys the current pass has yet to visit: the assignment as it was when the pass began. */
    pass: seq<Key>,
    positions: map<Key, nat>,
    /** The handler call being waited for. */
    inFlight: Option<nat>,
    stopped: bool)

  datatype Group = Group(committed: map<Key, nat>, members: seq<Member>)

  // ---------------------------------------------------------------- logs

  predicate Exists(logs: Logs, key: Key) {
    key.topic in logs && key.partition < |logs[key.topic]|
  }

  /** The log of a partition, empty when there is no such partition. */
  function At(logs: Logs, key: Key): seq<Record> {
    if Exists(logs, key) then logs[key.topic][key.partition] else []
  }

  function Empty(count: nat): (logs: seq<seq<Record>>)
    ensures |logs| == count && forall i :: 0 <= i < count ==> logs[i] == []
  {
    if count == 0 then [] else Empty(count - 1) + [[]]
  }

  /** The logs once `topic` exists. */
  function WithTopic(logs: Logs, topic: string, partitions: nat): Logs {
    if topic in logs then logs else logs[topic := Empty(partitions)]
  }

  /** The logs after one record is appended to a partition of a topic that exists. */
  function Appended(logs: Logs, key: Key, record: Record): Logs
    requires Exists(logs, key)
  {
    logs[key.topic := logs[key.topic][key.partition := logs[key.topic][key.partition] + [record]]]
  }

  /** Nothing is ever removed or rewritten. */
  ghost predicate Extends(old_: Logs, new_: Logs) {
    forall key :: Exists(old_, key) ==> Exists(new_, key) && At(old_, key) <= At(new_, key)
  }

  lemma WithTopicExtends(logs: Logs, topic: string, partitions: nat)
    ensures Extends(logs, WithTopic(logs, topic, partitions))
  {
  }

  lemma AppendedExtends(logs: Logs, key: Key, record: Record)
    requires Exists(logs, key)
    ensures Extends(logs, Appended(logs, key, record))
    ensures At(Appended(logs, key, record), key) == At(logs, key) + [record]
  {
    var after := Appended(logs, key, record);
    forall k | Exists(logs, k)
      ensures Exists(after, k) && At(logs, k) <= At(after, k)
    {
      if k != key {
        assert At(after, k) == At(logs, k);
      }
    }
  }

  // ---------------------------------------------------------------- dealing partitions

  predicate Distinct<T(==)>(s: seq<T>) {
    forall i, j :: 0 <= i < j < |s| ==> s[i] != s[j]
  }

  /** Puts a topic in its place in code-unit order, once. */
  function InsertTopic(topics: seq<string>, topic: string): (r: seq<string>)
    ensures forall t :: t in r <==> t in topics || t == topic
  {
    if topics == [] then [topic]
    else if topics[0] == topic then topics
    else if KeyLess(topic, topics[0]) then [topic] + topics
    else [topics[0]] + InsertTopic(topics[1..], topic)
  }

  /** In code-unit order, each once. */
  predicate Ascending(topics: seq<string>) {
    forall i, j :: 0 <= i < j < |topics| ==> KeyLess(topics[i], topics[j])
  }

  lemma AscendingCons(first: string, rest: seq<string>)
    requires Ascending(rest) && forall t :: t in rest ==> KeyLess(first, t)
    ensures Ascending([first] + rest)
  {
    forall j | 0 <= j < |rest|
      ensures KeyLess(first, rest[j])
    {
      assert rest[j] in rest;
    }
  }

  lemma AscendingFirst(topics: seq<string>, topic: string)
    requires Ascending(topics) && topics != [] && KeyLess(topic, topics[0])
    ensures Ascending([topic] + topics)
  {
    forall t | t in topics
      ensures KeyLess(topic, t)
    {
      if t != topics[0] {
        LexTransitive(Units(topic), Units(topics[0]), Units(t));
      }
    }
    AscendingCons(topic, topics);
  }

  lemma {:induction false} InsertKeepsAscending(topics: seq<string>, topic: string)
    requires Ascending(topics)
    ensures Ascending(InsertTopic(topics, topic))
  {
    if topics != [] && topics[0] != topic {
      if KeyLess(topic, topics[0]) {
        AscendingFirst(topics, topic);
      } else {
        KeyTotal(topic, topics[0]);
        InsertKeepsAscending(topics[1..], topic);
        AscendingCons(topics[0], InsertTopic(topics[1..], topic));
      }
    }
  }

  function InsertTopics(topics: seq<string>, more: seq<string>): (r: seq<string>)
    ensures forall t :: t in r <==> t in topics || t in more
  {
    if more == [] then topics
    else
      assert more == more[..|more| - 1] + [more[|more| - 1]];
      InsertTopic(InsertTopics(topics, more[..|more| - 1]), more[|more| - 1])
  }

  lemma {:induction false} InsertTopicsKeepsAscending(topics: seq<string>, more: seq<string>)
    requires Ascending(topics)
    ensures Ascending(InsertTopics(topics, more))
  {
    if more != [] {
      InsertTopicsKeepsAscending(topics, more[..|more| - 1]);
      InsertKeepsAscending(InsertTopics(topics, more[..|more| - 1]), more[|more| - 1]);
    }
  }

  /** The topics any member subscribes to, each once. */
  function Subscribed(members: seq<Member>): (topics: seq<string>)
    ensures forall t :: t in topics <==> exists i :: 0 <= i < |members| && t in members[i].topics
  {
    if members == [] then []
    else
      var rest := members[..|members| - 1];
      assert forall i :: 0 <= i < |rest| ==> rest[i] == members[i];
      InsertTopics(Subscribed(rest), members[|members| - 1].topics)
  }

  lemma {:induction false} SubscribedAscending(members: seq<Member>)
    ensures Ascending(Subscribed(members))
  {
    if members != [] {
      SubscribedAscending(members[..|members| - 1]);
      InsertTopicsKeepsAscending(Subscribed(members[..|members| - 1]), members[|members| - 1].topics);
    }
  }

  lemma AscendingDistinct(topics: seq<string>)
    requires Ascending(topics)
    ensures Distinct(topics)
  {
    forall i, j | 0 <= i < j < |topics|
      ensures topics[i] != topics[j]
    {
      LexAsymmetric(Units(topics[i]), Units(topics[j]));
    }
  }

  lemma SubscribedDistinct(members: seq<Member>)
    ensures Distinct(Subscribed(members))
  {
    SubscribedAscending(members);
    AscendingDistinct(Subscribed(members));
  }

  /** The first `count` partitions of one topic. */
  function TopicKeys(topic: string, count: nat): (keys: seq<Key>)
    ensures |keys| == count && forall p :: 0 <= p < count ==> keys[p] == Key(topic, p)
  {
    if count == 0 then [] else TopicKeys(topic, count - 1) + [Key(topic, count - 1)]
  }

  function PartitionCount(logs: Logs, topic: string): nat {
    if topic in logs then |logs[topic]| else 0
  }

  /** Every partition of every topic listed. */
  function KeysOf(logs: Logs, topics: seq<string>): (keys: seq<Key>)
    ensures forall k :: k in keys <==> k.topic in topics && k.partition < PartitionCount(logs, k.topic)
  {
    if topics == [] then []
    else
      var rest, last := topics[..|topics| - 1], topics[|topics| - 1];
      assert topics == rest + [last];
      var tail := TopicKeys(last, PartitionCount(logs, last));
      assert forall k: Key :: k.topic == last && k.partition < |tail| ==> tail[k.partition] == k && k in tail;
      KeysOf(logs, rest) + tail
  }

  lemma {:induction false} KeysDistinct(logs: Logs, topics: seq<string>)
    requires Distinct(topics)
    ensures Distinct(KeysOf(logs, topics))
  {
    if topics != [] {
      var rest, last := topics[..|topics| - 1], topics[|topics| - 1];
      KeysDistinct(logs, rest);
      var front, tail := KeysOf(logs, rest), TopicKeys(last, PartitionCount(logs, last));
      forall i, j | 0 <= i < |front| && 0 <= j < |tail|
        ensures front[i] != tail[j]
      {
        assert front[i] in front && front[i].topic in rest && tail[j].topic == last;
      }
      assert KeysOf(logs, topics) == front + tail;
    }
  }

  /** The j-th key goes to the member whose index it leaves modulo the group's size. */
  predicate Turn(j: nat, n: nat, i: nat)
    requires n > 0
  {
    j % n == i
  }

  /** Every n-th key, starting at the member's own index. */
  function Share(keys: seq<Key>, n: nat, i: nat): seq<Key>
    requires n > 0
  {
    if keys == [] then []
    else Share(keys[..|keys| - 1], n, i) + if Turn(|keys| - 1, n, i) then [keys[|keys| - 1]] else []
  }

  /** Key `k` is dealt to member `i`: one of its places in the list is the member's turn. */
  predicate Dealt(keys: seq<Key>, n: nat, i: nat, k: Key)
    requires n > 0
  {
    exists j :: 0 <= j < |keys| && keys[j] == k && Turn(j, n, i)
  }

  lemma {:induction false} ShareMember(keys: seq<Key>, n: nat, i: nat, k: Key)
    requires n > 0
    ensures k in Share(keys, n, i) <==> Dealt(keys, n, i, k)
  {
    if keys != [] {
      var rest, last := keys[..|keys| - 1], |keys| - 1;
      ShareMember(rest, n, i, k);
      assert forall j :: 0 <= j < last ==> rest[j] == keys[j];
      assert Dealt(keys, n, i, k) <==> Dealt(rest, n, i, k) || (keys[last] == k && Turn(last, n, i));
    }
  }

  lemma {:induction false} ShareDistinct(keys: seq<Key>, n: nat, i: nat)
    requires n > 0 && Distinct(keys)
    ensures Distinct(Share(keys, n, i))
  {
    if keys != [] {
      var rest, last := keys[..|keys| - 1], keys[|keys| - 1];
      ShareDistinct(rest, n, i);
      ShareMember(rest, n, i, last);
      assert !Dealt(rest, n, i, last);
      DistinctAppend(Share(rest, n, i), last);
    }
  }

  lemma DistinctAppend<T>(s: seq<T>, x: T)
    requires Distinct(s) && x !in s
    ensures Distinct(s + [x])
  {
  }

  /** A share holds exactly the keys whose number is the member's modulo the group's size, once each. */
  lemma ShareHolds(keys: seq<Key>, n: nat, i: nat)
    requires n > 0 && Distinct(keys)
    ensures Distinct(Share(keys, n, i))
    ensures forall j :: 0 <= j < |keys| ==> (keys[j] in Share(keys, n, i) <==> Turn(j, n, i))
    ensures forall k :: k in Share(keys, n, i) ==> k in keys
  {
    ShareDistinct(keys, n, i);
    forall j | 0 <= j < |keys|
      ensures keys[j] in Share(keys, n, i) <==> Turn(j, n, i)
    {
      ShareMember(keys, n, i, keys[j]);
    }
    forall k | k in Share(keys, n, i)
      ensures k in keys
    {
      ShareMember(keys, n, i, k);
    }
  }

  lemma {:induction false} SmallShareIsEmpty(keys: seq<Key>, n: nat, i: nat)
    requires n > 0 && i >= |keys|
    ensures Share(keys, n, i) == []
  {
    if keys != [] {
      SmallShareIsEmpty(keys[..|keys| - 1], n, i);
      Below(|keys| - 1, n, i);
    }
  }

  lemma Below(j: nat, n: nat, i: nat)
    requires n > 0 && j < i
    ensures j % n != i
  {
    if j < n {
      assert j % n == j;
    }
  }

  /** Keeps only what the member still holds. */
  function Held(positions: map<Key, nat>, holds: seq<Key>): map<Key, nat> {
    map k | k in positions && k in holds :: positions[k]
  }

  function Reassigned(member: Member, holds: seq<Key>): Member {
    member.(holds := holds, positions := Held(member.positions, holds))
  }

  /** The members once the partitions they subscribe to are dealt to them in turn. */
  function Rebalanced(logs: Logs, members: seq<Member>): (r: seq<Member>)
    ensures |r| == |members|
    ensures forall i :: 0 <= i < |members| ==>
              r[i] == Reassigned(members[i], Share(KeysOf(logs, Subscribed(members)), |members|, i))
  {
    var keys := KeysOf(logs, Subscribed(members));
    seq(|members|, i requires 0 <= i < |members| => Reassigned(members[i], Share(keys, |members|, i)))
  }

  /** Who holds a partition. */
  predicate HeldBy(members: seq<Member>, i: int, key: Key) {
    0 <= i < |members| && key in members[i].holds
  }

  /** What member `i` of a rebalanced group holds. */
  predicate DealtTo(r: seq<Member>, keys: seq<Key>, i: nat)
    requires i < |r|
  {
    && Distinct(r[i].holds)
    && (forall j :: 0 <= j < |keys| ==> (HeldBy(r, i, keys[j]) <==> Turn(j, |r|, i)))
    && (forall k :: k in r[i].holds ==> k in keys)
    && (forall k :: k in r[i].positions ==> k in r[i].holds)
    && (i >= |keys| ==> r[i].holds == [])
  }

  /**
   * Every partition of a subscribed topic goes to exactly one member and appears there once, no
   * other partition is handed out, a member with no turn gets none, and nobody keeps
   * a read position for a partition it does not hold.
   */
  lemma RebalanceDealsEachOnce(logs: Logs, members: seq<Member>)
    requires members != []
    ensures var keys := KeysOf(logs, Subscribed(members));
            && Distinct(keys)
            && forall i :: 0 <= i < |members| ==> DealtTo(Rebalanced(logs, members), keys, i)
  {
    SubscribedDistinct(members);
    KeysDistinct(logs, Subscribed(members));
    forall i | 0 <= i < |members|
      ensures DealtTo(Rebalanced(logs, members), KeysOf(logs, Subscribed(members)), i)
    {
      DealtToMember(logs, members, i);
    }
  }

  lemma DealtToMember(logs: Logs, members: seq<Member>, i: nat)
    requires i < |members| && Distinct(KeysOf(logs, Subscribed(members)))
    ensures DealtTo(Rebalanced(logs, members), KeysOf(logs, Subscribed(members)), i)
  {
    var keys, n := KeysOf(logs, Subscribed(members)), |members|;
    ShareHolds(keys, n, i);
    if i >= |keys| {
      SmallShareIsEmpty(keys, n, i);
    }
    assert Rebalanced(logs, members)[i] == Reassigned(members[i], Share(keys, n, i));
  }

  /** Each of those partitions has one holder, and only one. */
  lemma OneHolder(logs: Logs, members: seq<Member>, key: Key)
    requires members != [] && key in KeysOf(logs, Subscribed(members))
    ensures exists i :: HeldBy(Rebalanced(logs, members), i, key)
    ensures forall i, j :: HeldBy(Rebalanced(logs, members), i, key) && HeldBy(Rebalanced(logs, members), j, key) ==> i == j
  {
    var keys, r := KeysOf(logs, Subscribed(members)), Rebalanced(logs, members);
    RebalanceDealsEachOnce(logs, members);
    var j :| 0 <= j < |keys| && keys[j] == key;
    assert DealtTo(r, keys, j % |r|) && Turn(j, |r|, j % |r|);
    assert HeldBy(r, j % |r|, keys[j]);
    forall i | HeldBy(r, i, key)
      ensures i == j % |r|
    {
      assert DealtTo(r, keys, i);
    }
  }
}
