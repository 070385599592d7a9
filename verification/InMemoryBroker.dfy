/** The in-process broker, changed in place, each method one step of the state machine. */
module InMemoryBroker {
  import opened Common
  import opened Groups
  import opened Broker

  /** The logs after each message is appended in turn. */
  function ProducedAll(cfg: Config, logs: Logs, messages: seq<(Key, Record)>): Logs {
    if messages == [] then logs
    else
      var last := messages[|messages| - 1];
      Produced(cfg, ProducedAll(cfg, logs, messages[..|messages| - 1]), last.0, last.1)
  }

  /** The topics declared, existing ones left alone. */
  function EnsuredAll(logs: Logs, specs: seq<(string, nat)>): Logs {
    if specs == [] then logs
    else
      var last := specs[|specs| - 1];
      WithTopic(EnsuredAll(logs, specs[..|specs| - 1]), last.0, last.1)
  }

  class InMemoryBroker {
    const cfg: Config
    var logs: Logs
    var groups: map<string, Group>
    var calls: seq<Call>
    var accepted: set<Accepted>
    var closed: bool

    constructor (cfg: Config)
      ensures this.cfg == cfg && State() == INITIAL
    {
      this.cfg := cfg;
      logs, groups, calls, accepted, closed := map[], map[], [], {}, false;
    }

    function State(): State
      reads this
    {
      Broker.State.State(logs, groups, calls, accepted, closed)
    }

    method EnsureTopics(specs: seq<(string, nat)>) returns (ok: bool)
      modifies this
      ensures ok == !old(closed)
      ensures State() == if ok then old(State()).(logs := EnsuredAll(old(logs), specs)) else old(State())
    {
      if closed {
        return false;
      }
      for i := 0 to |specs|
        invariant State() == old(State()).(logs := EnsuredAll(old(logs), specs[..i]))
      {
        assert specs[..i + 1] == specs[..i] + [specs[i]];
        var (topic, partitions) := specs[i];
        if topic !in logs {
          logs := logs[topic := Empty(partitions)];
        }
      }
      assert specs[..|specs|] == specs;
      return true;
    }

    method LogsFor(topic: string)
      modifies this
      ensures State() == old(State()).(logs := WithTopic(old(logs), topic, cfg.defaultPartitions))
    {
      if topic !in logs {
        logs := logs[topic := Empty(cfg.defaultPartitions)];
      }
    }

    /** Appends every message; each names the partition its key hashes to. */
    method Produce(messages: seq<(Key, Record)>) returns (ok: bool)
      modifies this
      ensures ok == !old(closed)
      ensures State() == if ok then old(State()).(logs := ProducedAll(cfg, old(logs), messages)) else old(State())
    {
      if closed {
        return false;
      }
      for i := 0 to |messages|
        invariant State() == old(State()).(logs := ProducedAll(cfg, old(logs), messages[..i]))
      {
        assert messages[..i + 1] == messages[..i] + [messages[i]];
        var (key, record) := messages[i];
        LogsFor(key.topic);
        if key.partition < |logs[key.topic]| {
          var partitions := logs[key.topic];
          logs := logs[key.topic := partitions[key.partition := partitions[key.partition] + [record]]];
        }
      }
      assert messages[..|messages|] == messages;
      return true;
    }

    /** The topics of every member, each once, in code-unit order. */
    static method CollectTopics(members: seq<Member>) returns (topics: seq<string>)
      ensures topics == Subscribed(members)
      ensures Ascending(topics)
      ensures forall t :: t in topics <==> exists i :: 0 <= i < |members| && t in members[i].topics
    {
      topics := [];
      for i := 0 to |members|
        invariant topics == Subscribed(members[..i])
      {
        assert members[..i + 1][..i] == members[..i];
        var more := members[i].topics;
        ghost var before := topics;
        for j := 0 to |more|
          invariant topics == InsertTopics(before, more[..j])
        {
          assert more[..j + 1][..j] == more[..j];
          topics := InsertTopic(topics, more[j]);
        }
        assert more[..|more|] == more;
      }
      assert members[..|members|] == members;
      SubscribedAscending(members);
    }

    static method PushPartitions(front: seq<Key>, topic: string, count: nat) returns (keys: seq<Key>)
      ensures keys == front + TopicKeys(topic, count)
    {
      keys := front;
      for p := 0 to count
        invariant keys == front + TopicKeys(topic, p)
      {
        keys := keys + [Key(topic, p)];
      }
    }

    /** Every partition of every topic, the topics created where they are missing. */
    method CollectKeys(topics: seq<string>) returns (keys: seq<Key>)
      requires Distinct(topics)
      modifies this
      ensures State() == old(State()).(logs := WithTopics(old(logs), topics, cfg.defaultPartitions))
      ensures keys == KeysOf(logs, topics)
    {
      keys := [];
      for i := 0 to |topics|
        invariant State() == old(State()).(logs := WithTopics(old(logs), topics[..i], cfg.defaultPartitions))
        invariant keys == KeysOf(logs, topics[..i])
      {
        assert topics[..i + 1][..i] == topics[..i];
        ghost var before := logs;
        LogsFor(topics[i]);
        KeysUnchanged(before, logs, topics[..i], topics[i]);
        keys := PushPartitions(keys, topics[i], |logs[topics[i]]|);
      }
      assert topics[..|topics|] == topics;
    }

    method Rebalance(group: string)
      modifies this
      ensures State() == Broker.Rebalance(cfg, old(State()), group)
    {
      if group !in groups || |groups[group].members| == 0 {
        return;
      }
      var members := groups[group].members;
      var topics := CollectTopics(members);
      AscendingDistinct(topics);
      var keys := CollectKeys(topics);
      var shares := Deal(keys, |members|);
      var updated := Reassign(members, shares);
      assert updated == Rebalanced(logs, members);
      groups := groups[group := groups[group].(members := updated)];
    }

    /** Each member takes its share, and forgets where it was in what it no longer holds. */
    static method Reassign(members: seq<Member>, shares: seq<seq<Key>>) returns (updated: seq<Member>)
      requires |shares| == |members|
      ensures |updated| == |members| && forall i :: 0 <= i < |members| ==> updated[i] == Reassigned(members[i], shares[i])
    {
      updated := [];
      for i := 0 to |members|
        invariant |updated| == i && forall j :: 0 <= j < i ==> updated[j] == Reassigned(members[j], shares[j])
      {
        updated := updated + [Reassigned(members[i], shares[i])];
      }
    }

    static method Deal(keys: seq<Key>, n: nat) returns (shares: seq<seq<Key>>)
      requires n > 0
      ensures |shares| == n && forall i :: 0 <= i < n ==> shares[i] == Share(keys, n, i)
    {
      shares := seq(n, _ => []);
      for j := 0 to |keys|
        invariant |shares| == n && forall i :: 0 <= i < n ==> shares[i] == Share(keys[..j], n, i)
      {
        assert keys[..j + 1][..j] == keys[..j];
        shares := shares[j % n := shares[j % n] + [keys[j]]];
      }
      assert keys[..|keys|] == keys;
    }

    method Subscribe(group: string, topics: seq<string>, fromBeginning: bool) returns (ok: bool)
      modifies this
      ensures ok == !old(closed)
      ensures State() == Act(cfg, old(State()), Join(group, topics, fromBeginning))
    {
      if closed {
        return false;
      }
      if group !in groups {
        groups := groups[group := Group(map[], [])];
      }
      var member := Member(topics, fromBeginning, [], [], map[], None, false);
      groups := groups[group := groups[group].(members := groups[group].members + [member])];
      assert groups == old(groups)[group := GroupFor(old(State()), group).(members := GroupFor(old(State()), group).members + [member])];
      Rebalance(group);
      return true;
    }

    /** The end of `stop`: the pump has ended, the member goes, and its partitions are dealt again. */
    method RemoveMember(group: string, i: nat)
      requires IsMember(State(), group, i)
      requires MemberAt(State(), group, i).stopped && MemberAt(State(), group, i).inFlight.None?
      modifies this
      ensures State() == Act(cfg, old(State()), Leave(group, i))
    {
      var g := groups[group];
      groups := groups[group := g.(members := g.members[..i] + g.members[i + 1..])];
      Rebalance(group);
    }

    /** One turn of a member's read loop, up to the handler call it makes. */
    method VisitPartition(group: string, i: nat) returns (call: Option<nat>)
      requires IsMember(State(), group, i)
      modifies this
      ensures State() == Act(cfg, old(State()), Visit(group, i))
      ensures call.Some? ==> call.value < |calls| && calls[call.value].result == Running
                             && MemberAt(State(), group, i).inFlight == call
    {
      var m := groups[group].members[i];
      if m.stopped || m.inFlight.Some? || m.pass == [] {
        return None;
      }
      var key := m.pass[0];
      m := m.(pass := m.pass[1..]);
      if key.topic !in logs || key.partition >= |logs[key.topic]| {
        groups := groups[group := groups[group].(members := groups[group].members[i := m])];
        return None;
      }
      var log := logs[key.topic][key.partition];
      if key !in m.positions {
        var committed := groups[group].committed;
        var from := if key in committed then committed[key] else if m.fromBeginning then 0 else |log|;
        m := m.(positions := m.positions[key := from]);
      }
      var from := m.positions[key];
      assert m.positions == MemberAt(old(State()), group, i).positions[key := from];
      if from < |log| {
        call := Some(|calls|);
        calls := calls + [Call(group, key, from, log[from], Running)];
        m := m.(inFlight := call);
      } else {
        call := None;
      }
      groups := groups[group := groups[group].(members := groups[group].members[i := m])];
    }

    /** After the wait: committed and advanced, in that order, only if the handler resolved. */
    method AfterHandler(group: string, i: nat, timedOut: bool)
      requires IsMember(State(), group, i)
      modifies this
      ensures State() == Act(cfg, old(State()), Settle(group, i, timedOut))
    {
      var m := groups[group].members[i];
      if m.inFlight.None? || m.inFlight.value >= |calls| {
        return;
      }
      var c := calls[m.inFlight.value];
      if !timedOut && c.result == Running {
        return;
      }
      m := m.(inFlight := None);
      var g := groups[group];
      if !timedOut && c.result == Resolved {
        var next := c.offset + 1;
        g := g.(committed := g.committed[c.key := next]);
        m := m.(positions := m.positions[c.key := next]);
      }
      groups := groups[group := g.(members := g.members[i := m])];
    }
  }

  lemma {:induction false} KeysUnchanged(was: Logs, now: Logs, topics: seq<string>, topic: string)
    requires forall t :: t != topic ==> PartitionCount(was, t) == PartitionCount(now, t)
    requires topic !in topics
    ensures KeysOf(was, topics) == KeysOf(now, topics)
  {
    if topics != [] {
      KeysUnchanged(was, now, topics[..|topics| - 1], topic);
    }
  }
}
