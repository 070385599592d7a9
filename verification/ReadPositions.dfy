/** Where members resume: from what their group committed, as long as they only act on partitions they hold. */
module ReadPositions {
  import opened Common
  import opened Groups
  import opened Broker

  // ---------------------------------------------------------------- the rule

  /** Every member of the group would read on from the group's commit, wherever there is one. */
  ghost predicate ResumesFromCommits(s: State, group: string) {
    forall i: nat, key :: IsMember(s, group, i) && key in s.groups[group].committed ==>
                            NextOffset(s, group, i, key) == s.groups[group].committed[key]
  }

  /**
   * The step is not one by which a member of the group acts on a partition it has lost: a visit that
   * goes on over the keys of an older assignment, or a handler that resolves after its partition went
   * to someone else.
   */
  predicate OnlyHeld(s: State, group: string, a: Action) {
    match a
    case Visit(g, i) =>
      g == group && IsMember(s, g, i) && MemberAt(s, g, i).pass != [] ==> MemberAt(s, g, i).pass[0] in MemberAt(s, g, i).holds
    case Settle(g, i, timedOut) =>
      g == group && IsMember(s, g, i) && !timedOut ==> ResolvedIsHeld(s, MemberAt(s, g, i))
    case _ => true
  }

  predicate ResolvedIsHeld(s: State, m: Member) {
    m.inFlight.Some? && m.inFlight.value < |s.calls| && s.calls[m.inFlight.value].result == Resolved ==>
      s.calls[m.inFlight.value].key in m.holds
  }

  /** Which of the two is tolerated in a run. */
  datatype Leeway = Leeway(oldPasses: bool, lateResolves: bool)

  const STRICT := Leeway(false, false)

  predicate Permitted(w: Leeway, s: State, group: string, a: Action) {
    OnlyHeld(s, group, a) || (a.Visit? && w.oldPasses) || (a.Settle? && w.lateResolves)
  }

  predicate Obeys(w: Leeway, cfg: Config, actions: seq<Action>, group: string) {
    actions == [] ||
    (var front := actions[..|actions| - 1]; Obeys(w, cfg, front, group) && Permitted(w, Run(cfg, front), group, actions[|actions| - 1]))
  }

  // ---------------------------------------------------------------- the invariant

  ghost predicate OneHolderEach(members: seq<Member>) {
    forall i, j, key :: HeldBy(members, i, key) && HeldBy(members, j, key) ==> i == j
  }

  /** A member has positions only where it holds the partition, and they are what the group committed. */
  predicate Agrees(m: Member, committed: map<Key, nat>) {
    forall key :: key in m.positions ==> key in m.holds && (key in committed ==> m.positions[key] == committed[key])
  }

  predicate AllAgree(members: seq<Member>, committed: map<Key, nat>) {
    forall i :: 0 <= i < |members| ==> Agrees(members[i], committed)
  }

  ghost predicate InStep(g: Group) {
    OneHolderEach(g.members) && AllAgree(g.members, g.committed)
  }

  /** Dealing again leaves each partition with one holder, and takes positions only away. */
  lemma RebalancedInStep(logs: Logs, g: Group)
    requires g.members != [] && AllAgree(g.members, g.committed)
    ensures InStep(g.(members := Rebalanced(logs, g.members)))
  {
    var r, keys := Rebalanced(logs, g.members), KeysOf(logs, Subscribed(g.members));
    RebalanceDealsEachOnce(logs, g.members);
    forall i, j, key | HeldBy(r, i, key) && HeldBy(r, j, key)
      ensures i == j
    {
      assert DealtTo(r, keys, i);
      OneHolder(logs, g.members, key);
    }
    forall i | 0 <= i < |r|
      ensures Agrees(r[i], g.committed)
    {
      assert Agrees(g.members[i], g.committed);
    }
  }

  lemma RebalanceInStep(cfg: Config, s: State, group: string, other: string)
    requires other == group ==> AllAgree(GroupFor(s, group).members, GroupFor(s, group).committed)
    requires other != group ==> InStep(GroupFor(s, group))
    ensures InStep(GroupFor(Rebalance(cfg, s, other), group))
  {
    if other == group && group in s.groups && s.groups[group].members != [] {
      var g := s.groups[group];
      RebalancedInStep(WithTopics(s.logs, Subscribed(g.members), cfg.defaultPartitions), g);
    }
  }

  /** Replacing a member by one that holds the same and agrees. */
  lemma MemberInStep(g: Group, i: nat, m: Member)
    requires InStep(g) && i < |g.members| && m.holds == g.members[i].holds && Agrees(m, g.committed)
    ensures InStep(g.(members := g.members[i := m]))
  {
    var members := g.members[i := m];
    assert forall j, key :: HeldBy(members, j, key) <==> HeldBy(g.members, j, key);
  }

  /** A commit by the holder: nobody else has a position there to disagree. */
  lemma CommitInStep(g: Group, i: nat, key: Key, next: nat, m: Member)
    requires InStep(g) && i < |g.members| && key in g.members[i].holds
    requires m == g.members[i].(inFlight := None, positions := g.members[i].positions[key := next])
    ensures InStep(Group(g.committed[key := next], g.members[i := m]))
  {
    var members, committed := g.members[i := m], g.committed[key := next];
    assert forall j, k :: HeldBy(members, j, k) <==> HeldBy(g.members, j, k);
    assert HeldBy(g.members, i, key);
    forall j | 0 <= j < |members|
      ensures Agrees(members[j], committed)
    {
      assert Agrees(g.members[j], g.committed);
      assert key in g.members[j].positions ==> HeldBy(g.members, j, key);
    }
  }

  lemma VisitInStep(s: State, group: string, i: nat)
    requires IsMember(s, group, i) && InStep(s.groups[group]) && OnlyHeld(s, group, Visit(group, i))
    ensures InStep(VisitNext(s, group, i).groups[group])
  {
    var m, t := MemberAt(s, group, i), VisitNext(s, group, i);
    assert Agrees(m, s.groups[group].committed);
    if t != s {
      MemberInStep(s.groups[group], i, MemberAt(t, group, i));
    }
  }

  lemma SettleInStep(s: State, group: string, i: nat, timedOut: bool)
    requires IsMember(s, group, i) && InStep(s.groups[group]) && OnlyHeld(s, group, Settle(group, i, timedOut))
    ensures InStep(SettleCall(s, group, i, timedOut).groups[group])
  {
    var m, g := MemberAt(s, group, i), s.groups[group];
    assert Agrees(m, g.committed);
    MemberInStep(g, i, m.(inFlight := None));
    if m.inFlight.Some? && m.inFlight.value < |s.calls| && !timedOut && s.calls[m.inFlight.value].result == Resolved {
      var c := s.calls[m.inFlight.value];
      CommitInStep(g, i, c.key, c.offset + 1, m.(inFlight := None, positions := m.positions[c.key := c.offset + 1]));
    }
  }

  lemma JoinInStep(cfg: Config, s: State, group: string, other: string, m: Member)
    requires InStep(GroupFor(s, group)) && m.positions == map[]
    ensures var h := GroupFor(s, other);
            InStep(GroupFor(Rebalance(cfg, s.(groups := s.groups[other := h.(members := h.members + [m])]), other), group))
  {
    var h := GroupFor(s, other);
    RebalanceInStep(cfg, s.(groups := s.groups[other := h.(members := h.members + [m])]), group, other);
  }

  lemma LeaveInStep(cfg: Config, s: State, group: string, other: string, i: nat)
    requires InStep(GroupFor(s, group)) && IsMember(s, other, i)
    ensures var h := s.groups[other];
            InStep(GroupFor(Rebalance(cfg, s.(groups := s.groups[other := h.(members := Without(h.members, i))]), other), group))
  {
    var h := s.groups[other];
    if other == group {
      assert AllAgree(h.members, h.committed);
      assert AllAgree(Without(h.members, i), h.committed);
    }
    RebalanceInStep(cfg, s.(groups := s.groups[other := h.(members := Without(h.members, i))]), group, other);
  }

  /** Beginning a pass and being told to stop move no position. */
  lemma PassInStep(g: Group, i: nat, pass: seq<Key>, stopped: bool)
    requires InStep(g) && i < |g.members|
    ensures InStep(g.(members := g.members[i := g.members[i].(pass := pass, stopped := stopped)]))
  {
    assert Agrees(g.members[i], g.committed);
    MemberInStep(g, i, g.members[i].(pass := pass, stopped := stopped));
  }

  lemma DisconnectInStep(g: Group)
    requires InStep(g)
    ensures InStep(g.(members := AllStopped(g.members)))
  {
    var stopped := AllStopped(g.members);
    assert forall j, key :: HeldBy(stopped, j, key) <==> HeldBy(g.members, j, key);
    assert forall j :: 0 <= j < |stopped| ==> Agrees(g.members[j], g.committed) && Agrees(stopped[j], g.committed);
  }

  /** Steps that change members by themselves: joining, leaving, stopping, beginning a pass. */
  lemma MembershipInStep(cfg: Config, s: State, group: string, a: Action)
    requires InStep(GroupFor(s, group)) && (a.Join? || a.Leave? || a.Stop? || a.StartPass? || a.Disconnect?)
    ensures InStep(GroupFor(Act(cfg, s, a), group))
  {
    match a
    case Join(other, topics, fromBeginning) =>
      JoinInStep(cfg, s, group, other, Member(topics, fromBeginning, [], [], map[], None, false));
    case Leave(other, i) =>
      if IsMember(s, other, i) {
        LeaveInStep(cfg, s, group, other, i);
      }
    case Stop(other, i) =>
      if other == group && IsMember(s, group, i) {
        PassInStep(s.groups[group], i, MemberAt(s, group, i).pass, true);
      }
    case StartPass(other, i) =>
      if other == group && IsMember(s, group, i) {
        PassInStep(s.groups[group], i, MemberAt(s, group, i).holds, MemberAt(s, group, i).stopped);
      }
    case Disconnect =>
      DisconnectInStep(GroupFor(s, group));
  }

  lemma ActInStep(cfg: Config, s: State, group: string, a: Action)
    requires InStep(GroupFor(s, group)) && OnlyHeld(s, group, a)
    ensures InStep(GroupFor(Act(cfg, s, a), group))
  {
    if a.Visit? {
      if a.group == group && IsMember(s, group, a.member) {
        VisitInStep(s, group, a.member);
      }
    } else if a.Settle? {
      if a.group == group && IsMember(s, group, a.member) {
        SettleInStep(s, group, a.member, a.timedOut);
      }
    } else if a.Join? || a.Leave? || a.Stop? || a.StartPass? || a.Disconnect? {
      MembershipInStep(cfg, s, group, a);
    }
  }

  lemma {:induction false} RunInStep(cfg: Config, actions: seq<Action>, group: string)
    requires Obeys(STRICT, cfg, actions, group)
    ensures InStep(GroupFor(Run(cfg, actions), group))
  {
    if actions != [] {
      var front := actions[..|actions| - 1];
      RunInStep(cfg, front, group);
      ActInStep(cfg, Run(cfg, front), group, actions[|actions| - 1]);
    }
  }

  /**
   * Over every run in which members act only on partitions they hold, whoever reads a partition next
   * reads on from the group's commit, whatever they read of it before they last lost it.
   */
  lemma HoldersResumeFromCommits(cfg: Config, actions: seq<Action>, group: string)
    requires Obeys(STRICT, cfg, actions, group)
    ensures ResumesFromCommits(Run(cfg, actions), group)
  {
    RunInStep(cfg, actions, group);
    var s := Run(cfg, actions);
    forall i: nat, key | IsMember(s, group, i) && key in s.groups[group].committed
      ensures NextOffset(s, group, i, key) == s.groups[group].committed[key]
    {
      assert Agrees(MemberAt(s, group, i), s.groups[group].committed);
    }
  }

  // ---------------------------------------------------------------- acting on a partition that was lost

  /** A member of a group that reads one topic of two partitions. */
  function Reader(topic: string, holds: seq<Key>, pass: seq<Key>, positions: map<Key, nat>, inFlight: Option<nat>, stopped: bool): Member {
    Member([topic], true, holds, pass, positions, inFlight, stopped)
  }

  predicate TwoPartitions(logs: Logs, topic: string) {
    topic in logs && |logs[topic]| == 2
  }

  lemma KeysOfTwo(logs: Logs, topic: string)
    requires TwoPartitions(logs, topic)
    ensures KeysOf(logs, [topic]) == [Key(topic, 0), Key(topic, 1)]
  {
    assert [topic][..0] == [];
    assert KeysOf(logs, []) == [];
    assert TopicKeys(topic, 2) == [Key(topic, 0), Key(topic, 1)];
  }

  lemma SubscribedByOne(m: Member, topic: string)
    requires m.topics == [topic]
    ensures Subscribed([m]) == [topic]
  {
    assert [m][..0] == [] && [topic][..0] == [];
    assert InsertTopics([], [topic]) == InsertTopic(InsertTopics([], []), topic);
  }

  lemma SubscribedByTwo(a: Member, b: Member, topic: string)
    requires a.topics == [topic] && b.topics == [topic]
    ensures Subscribed([a, b]) == [topic]
  {
    SubscribedByOne(a, topic);
    assert [a, b][..1] == [a] && [topic][..0] == [];
    assert InsertTopics([topic], [topic]) == InsertTopic(InsertTopics([topic], []), topic);
  }

  lemma SharesOfTwo(k: Key, l: Key)
    ensures Share([k, l], 1, 0) == [k, l]
    ensures Share([k, l], 2, 0) == [k] && Share([k, l], 2, 1) == [l]
  {
    assert [k, l][..1] == [k] && [k][..0] == [];
    assert Share([k], 1, 0) == [k] && Share([k], 2, 0) == [k] && Share([k], 2, 1) == [];
  }

  lemma NoNewTopics(logs: Logs, topic: string, partitions: nat)
    requires topic in logs
    ensures WithTopics(logs, [topic], partitions) == logs
  {
    assert [topic][..0] == [];
  }

  lemma DealtToOne(logs: Logs, m: Member, topic: string)
    requires TwoPartitions(logs, topic) && m.topics == [topic]
    ensures Subscribed([m]) == [topic] && Rebalanced(logs, [m]) == [Reassigned(m, [Key(topic, 0), Key(topic, 1)])]
  {
    SubscribedByOne(m, topic);
    KeysOfTwo(logs, topic);
    SharesOfTwo(Key(topic, 0), Key(topic, 1));
  }

  lemma DealtToTwo(logs: Logs, a: Member, b: Member, topic: string)
    requires TwoPartitions(logs, topic) && a.topics == [topic] && b.topics == [topic]
    ensures Subscribed([a, b]) == [topic]
    ensures Rebalanced(logs, [a, b]) == [Reassigned(a, [Key(topic, 0)]), Reassigned(b, [Key(topic, 1)])]
  {
    SubscribedByTwo(a, b, topic);
    KeysOfTwo(logs, topic);
    SharesOfTwo(Key(topic, 0), Key(topic, 1));
  }

  /** A set of states that no permitted step leaves. */
  ghost predicate Closed(r: State -> bool, w: Leeway, cfg: Config, group: string) {
    forall s, a :: r(s) && Permitted(w, s, group, a) ==> r(Act(cfg, s, a))
  }

  lemma Then(r: State -> bool, w: Leeway, cfg: Config, group: string, s: State, a: Action)
    requires Closed(r, w, cfg, group) && r(s) && Permitted(w, s, group, a)
    ensures r(Act(cfg, s, a))
  {
  }

  /** What a rebalance leaves, once it is known what is dealt. */
  lemma Redealt(cfg: Config, s: State, group: string, g: Group, topic: string, dealt: seq<Member>)
    requires topic in s.logs && g.members != [] && Subscribed(g.members) == [topic] && Rebalanced(s.logs, g.members) == dealt
    ensures Rebalance(cfg, s.(groups := s.groups[group := g]), group) == s.(groups := s.groups[group := g.(members := dealt)])
  {
    NoNewTopics(s.logs, topic, cfg.defaultPartitions);
    SetTwice(s.groups, group, g, g.(members := dealt));
  }

  lemma SetTwice<K, V>(m: map<K, V>, k: K, v: V, w: V)
    ensures m[k := v][k := w] == m[k := w]
  {
  }

  lemma FirstJoins(cfg: Config, s: State, group: string, topic: string)
    requires !s.closed && group !in s.groups && TwoPartitions(s.logs, topic)
    ensures Act(cfg, s, Join(group, [topic], true))
         == s.(groups := s.groups[group := Group(map[], [Reader(topic, [Key(topic, 0), Key(topic, 1)], [], map[], None, false)])])
  {
    var m := Reader(topic, [], [], map[], None, false);
    DealtToOne(s.logs, m, topic);
    assert [] + [m] == [m];
    assert Held(map[], [Key(topic, 0), Key(topic, 1)]) == map[];
    Redealt(cfg, s, group, Group(map[], [m]), topic, [Reassigned(m, [Key(topic, 0), Key(topic, 1)])]);
  }

  lemma SecondJoins(cfg: Config, s: State, group: string, topic: string, a: Member)
    requires !s.closed && group in s.groups && s.groups[group].members == [a] && a.topics == [topic] && TwoPartitions(s.logs, topic)
    ensures Act(cfg, s, Join(group, [topic], true))
         == s.(groups := s.groups[group := Group(s.groups[group].committed,
                                                [Reassigned(a, [Key(topic, 0)]), Reader(topic, [Key(topic, 1)], [], map[], None, false)])])
  {
    var g, b := s.groups[group], Reader(topic, [], [], map[], None, false);
    DealtToTwo(s.logs, a, b, topic);
    assert [a] + [b] == [a, b];
    assert Held(map[], [Key(topic, 1)]) == map[];
    Redealt(cfg, s, group, g.(members := [a, b]), topic, [Reassigned(a, [Key(topic, 0)]), Reassigned(b, [Key(topic, 1)])]);
  }

  lemma SecondLeaves(cfg: Config, s: State, group: string, topic: string, a: Member, b: Member)
    requires group in s.groups && s.groups[group].members == [a, b] && a.topics == [topic] && TwoPartitions(s.logs, topic)
    requires b.stopped && b.inFlight.None?
    ensures Act(cfg, s, Leave(group, 1))
         == s.(groups := s.groups[group := Group(s.groups[group].committed, [Reassigned(a, [Key(topic, 0), Key(topic, 1)])])])
  {
    var g := s.groups[group];
    assert Without([a, b], 1) == [a];
    DealtToOne(s.logs, a, topic);
    Redealt(cfg, s, group, g.(members := [a]), topic, [Reassigned(a, [Key(topic, 0), Key(topic, 1)])]);
  }

  /** Member `i` visits a partition with something to read, and a call is made. */
  lemma Calls(cfg: Config, s: State, group: string, i: nat, key: Key)
    requires IsMember(s, group, i) && Exists(s.logs, key) && NextOffset(s, group, i, key) < |At(s.logs, key)|
    requires var m := MemberAt(s, group, i); !m.stopped && m.inFlight.None? && m.pass != [] && m.pass[0] == key
    ensures var m, from := MemberAt(s, group, i), NextOffset(s, group, i, key);
            var waiting := m.(pass := m.pass[1..], positions := m.positions[key := from], inFlight := Some(|s.calls|));
            var c := Call(group, key, from, At(s.logs, key)[from], Running);
            Act(cfg, s, Visit(group, i)) == SetMember(s, group, i, waiting).(calls := s.calls + [c])
  {
  }

  /** Member `i` visits a partition it has read to its end. */
  lemma Passes(cfg: Config, s: State, group: string, i: nat, key: Key)
    requires IsMember(s, group, i) && Exists(s.logs, key) && NextOffset(s, group, i, key) >= |At(s.logs, key)|
    requires var m := MemberAt(s, group, i); !m.stopped && m.inFlight.None? && m.pass != [] && m.pass[0] == key
    ensures var m, from := MemberAt(s, group, i), NextOffset(s, group, i, key);
            Act(cfg, s, Visit(group, i)) == SetMember(s, group, i, m.(pass := m.pass[1..], positions := m.positions[key := from]))
  {
  }

  /** The group's rows when the call a member waits for ends as handled, or rejects. */
  function Ended(g: Group, i: nat, c: Call, handled: bool): Group
    requires i < |g.members|
  {
    var m := g.members[i].(inFlight := None);
    if handled then Group(g.committed[c.key := c.offset + 1], g.members[i := m.(positions := m.positions[c.key := c.offset + 1])])
    else g.(members := g.members[i := m])
  }

  /** A handler ends: accepted by every subscriber, or thrown out of. */
  lemma Answers(cfg: Config, s: State, n: nat, handled: bool)
    requires n < |s.calls| && s.calls[n].result == Running
    ensures var c := s.calls[n];
            var accepted := if handled then s.accepted + {Accepted(c.group, c.key, c.offset)} else s.accepted;
            Act(cfg, s, Finish(n, if handled then Handled else Threw))
              == s.(accepted := accepted, calls := s.calls[n := c.(result := if handled then Resolved else Rejected)])
  {
  }

  /** The wait for it ends. */
  lemma Returns(cfg: Config, s: State, group: string, i: nat, n: nat, c: Call, handled: bool)
    requires IsMember(s, group, i) && MemberAt(s, group, i).inFlight == Some(n)
    requires n < |s.calls| && s.calls[n] == c.(result := if handled then Resolved else Rejected)
    ensures Act(cfg, s, Settle(group, i, false)) == s.(groups := s.groups[group := Ended(s.groups[group], i, c, handled)])
  {
  }

  // ---------------------------------------------------------------- the two ways

  /** Two partitions, the first empty and the second holding these records. */
  predicate Laid(logs: Logs, topic: string, records: seq<Record>) {
    topic in logs && logs[topic] == [[], records]
  }

  /** An open broker with that topic, and the group as it stands. */
  predicate Point(s: State, topic: string, records: seq<Record>, group: string, g: Group) {
    !s.closed && Laid(s.logs, topic, records) && group in s.groups && s.groups[group] == g
  }

  lemma {:induction false} Written(r: State -> bool, w: Leeway, cfg: Config, group: string, topic: string, records: seq<Record>)
    returns (t: State)
    requires Closed(r, w, cfg, group) && r(INITIAL)
    ensures r(t) && !t.closed && Laid(t.logs, topic, records) && t.groups == map[]
  {
    if records == [] {
      Then(r, w, cfg, group, INITIAL, EnsureTopic(topic, 2));
      t := Act(cfg, INITIAL, EnsureTopic(topic, 2));
      assert Empty(2) == [[], []];
    } else {
      var front, last := records[..|records| - 1], records[|records| - 1];
      t := Written(r, w, cfg, group, topic, front);
      Then(r, w, cfg, group, t, Produce(Key(topic, 1), last));
      t := Act(cfg, t, Produce(Key(topic, 1), last));
      assert front + [last] == records;
    }
  }

  /** One member, holding both partitions. */
  lemma Joined(r: State -> bool, w: Leeway, cfg: Config, group: string, topic: string, records: seq<Record>) returns (t: State)
    requires Closed(r, w, cfg, group) && r(INITIAL)
    ensures r(t)
    ensures Point(t, topic, records, group,
                  Group(map[], [Reader(topic, [Key(topic, 0), Key(topic, 1)], [], map[], None, false)]))
  {
    t := Written(r, w, cfg, group, topic, records);
    FirstJoins(cfg, t, group, topic);
    Then(r, w, cfg, group, t, Join(group, [topic], true));
    t := Act(cfg, t, Join(group, [topic], true));
  }

  /** A second one joins, and takes the second partition. */
  lemma JoinsToo(r: State -> bool, w: Leeway, cfg: Config, s: State, topic: string, records: seq<Record>, group: string, g: Group, a: Member)
    returns (t: State)
    requires Closed(r, w, cfg, group) && r(s)
    requires Point(s, topic, records, group, g) && g.members == [a] && a.topics == [topic]
    ensures r(t)
    ensures Point(t, topic, records, group,
                  Group(g.committed, [Reassigned(a, [Key(topic, 0)]), Reader(topic, [Key(topic, 1)], [], map[], None, false)]))
    ensures t.calls == s.calls
  {
    SecondJoins(cfg, s, group, topic, a);
    Then(r, w, cfg, group, s, Join(group, [topic], true));
    t := Act(cfg, s, Join(group, [topic], true));
  }

  lemma Begins(r: State -> bool, w: Leeway, cfg: Config, s: State, topic: string, records: seq<Record>, group: string, g: Group, i: nat)
    returns (t: State)
    requires Closed(r, w, cfg, group) && r(s)
    requires Point(s, topic, records, group, g) && i < |g.members| && g.members[i].pass == [] && g.members[i].inFlight.None?
    ensures r(t)
    ensures Point(t, topic, records, group, g.(members := g.members[i := g.members[i].(pass := g.members[i].holds)]))
  {
    Then(r, w, cfg, group, s, StartPass(group, i));
    t := Act(cfg, s, StartPass(group, i));
  }

  /** The member passes over the first partition, which is empty. */
  lemma SkipsFirst(r: State -> bool, w: Leeway, cfg: Config, s: State, topic: string, records: seq<Record>, group: string, g: Group, a: Member)
    returns (t: State)
    requires Closed(r, w, cfg, group) && r(s)
    requires Point(s, topic, records, group, g) && |g.members| > 0 && g.members[0] == a
    requires Key(topic, 0) in a.holds
    requires g.committed == map[] && a == Reader(topic, a.holds, [Key(topic, 0), Key(topic, 1)], map[], None, false)
    ensures r(t)
    ensures Point(t, topic, records, group,
                  g.(members := g.members[0 := a.(pass := [Key(topic, 1)], positions := map[Key(topic, 0) := 0])]))
  {
    Passes(cfg, s, group, 0, Key(topic, 0));
    Then(r, w, cfg, group, s, Visit(group, 0));
    t := Act(cfg, s, Visit(group, 0));
  }

  /** Member `i` visits the second partition, and its handler is called. */
  lemma Reads(r: State -> bool, w: Leeway, cfg: Config, s: State, topic: string, records: seq<Record>, group: string, g: Group, i: nat, from: nat)
    returns (t: State, n: nat)
    requires Closed(r, w, cfg, group) && r(s)
    requires Point(s, topic, records, group, g) && i < |g.members| && from < |records|
    requires var m := g.members[i]; !m.stopped && m.inFlight.None? && m.pass == [Key(topic, 1)]
    requires w.oldPasses || Key(topic, 1) in g.members[i].holds
    requires ReadFrom(g, g.members[i], Key(topic, 1), records) == from
    ensures r(t)
    ensures var m := g.members[i];
            var waiting := m.(pass := [], positions := m.positions[Key(topic, 1) := from], inFlight := Some(n));
            && Point(t, topic, records, group, g.(members := g.members[i := waiting]))
            && n < |t.calls| && t.calls[n] == Call(group, Key(topic, 1), from, records[from], Running)
  {
    n := |s.calls|;
    assert At(s.logs, Key(topic, 1)) == records && NextOffset(s, group, i, Key(topic, 1)) == from;
    assert [Key(topic, 1)][1..] == [];
    Calls(cfg, s, group, i, Key(topic, 1));
    Then(r, w, cfg, group, s, Visit(group, i));
    t := Act(cfg, s, Visit(group, i));
  }

  /** The call member `i` waits for ends, and the wait with it. */
  lemma Ends(r: State -> bool, w: Leeway, cfg: Config, s: State, topic: string, records: seq<Record>, group: string, g: Group,
             i: nat, n: nat, c: Call, handled: bool, after: Group) returns (t: State)
    requires Closed(r, w, cfg, group) && r(s) && Point(s, topic, records, group, g)
    requires i < |g.members| && g.members[i].inFlight == Some(n) && n < |s.calls|
    requires s.calls[n] == c && c.result == Running && c.group == group
    requires (w.lateResolves || !handled || c.key in g.members[i].holds) && Ended(g, i, c, handled) == after
    ensures r(t) && Point(t, topic, records, group, after)
    ensures handled ==> Accepted(group, c.key, c.offset) in t.accepted
  {
    var finish := Finish(n, if handled then Handled else Threw);
    Then(r, w, cfg, group, s, finish);
    Answers(cfg, s, n, handled);
    t := Act(cfg, s, finish);
    Returns(cfg, t, group, i, n, c, handled);
    Then(r, w, cfg, group, t, Settle(group, i, false));
    t := Act(cfg, t, Settle(group, i, false));
  }

  /** The second member stops and leaves, and the first holds both partitions again. */
  lemma Leaves(r: State -> bool, w: Leeway, cfg: Config, s: State, topic: string, records: seq<Record>, group: string, g: Group, a: Member, b: Member)
    returns (t: State)
    requires Closed(r, w, cfg, group) && r(s)
    requires Point(s, topic, records, group, g) && g.members == [a, b] && a.topics == [topic] && b.inFlight.None?
    ensures r(t)
    ensures Point(t, topic, records, group, Group(g.committed, [Reassigned(a, [Key(topic, 0), Key(topic, 1)])]))
    ensures t.accepted == s.accepted
  {
    Then(r, w, cfg, group, s, Stop(group, 1));
    t := Act(cfg, s, Stop(group, 1));
    assert [a, b][1 := b.(stopped := true)] == [a, b.(stopped := true)];
    SecondLeaves(cfg, t, group, topic, a, b.(stopped := true));
    Then(r, w, cfg, group, t, Leave(group, 1));
    t := Act(cfg, t, Leave(group, 1));
  }

  /** The member would read below what its group has committed and every subscriber has accepted. */
  predicate ReadsBelowCommit(s: State, group: string, i: nat, key: Key) {
    && IsMember(s, group, i) && key in MemberAt(s, group, i).holds && key in s.groups[group].committed
    && NextOffset(s, group, i, key) < s.groups[group].committed[key]
    && Accepted(group, key, NextOffset(s, group, i, key)) in s.accepted
  }

  /**
   * A pass goes on over the partitions it began with. The first member reads the second partition after
   * that went to the second member, and its handler rejects; the second member handles the message,
   * and leaves. Back with the first, the message is read again although the group has committed past it.
   */
  lemma OldPassReadsBelowCommit(r: State -> bool, w: Leeway, cfg: Config, group: string, topic: string, record: Record) returns (t: State)
    requires Closed(r, w, cfg, group) && r(INITIAL) && w.oldPasses
    ensures r(t) && ReadsBelowCommit(t, group, 0, Key(topic, 1))
  {
    var records, k, l := [record], Key(topic, 0), Key(topic, 1);
    t := Joined(r, w, cfg, group, topic, records);
    var a := Reader(topic, [k, l], [], map[], None, false);
    t := Begins(r, w, cfg, t, topic, records, group, Group(map[], [a]), 0);
    a := a.(pass := [k, l]);
    t := JoinsToo(r, w, cfg, t, topic, records, group, Group(map[], [a]), a);
    assert Held(map[], [k]) == map[];
    var b := Reader(topic, [l], [], map[], None, false);
    a := Reader(topic, [k], [k, l], map[], None, false);
    t := SkipsFirst(r, w, cfg, t, topic, records, group, Group(map[], [a, b]), a);
    a := Reader(topic, [k], [l], map[k := 0], None, false);
    t := FailsThenOther(r, w, cfg, t, topic, record, group, a, b);
  }

  /** One member of two changes. */
  lemma SecondChanges(g: Group, a: Member, b: Member, c: Member)
    requires g.members == [a, b]
    ensures g.(members := g.members[1 := c]) == Group(g.committed, [a, c])
  {
  }

  lemma FirstChanges(g: Group, a: Member, b: Member, c: Member)
    requires g.members == [a, b]
    ensures g.(members := g.members[0 := c]) == Group(g.committed, [c, b])
  {
  }

  lemma SecondHandled(g: Group, a: Member, b: Member, n: nat, c: Call) returns (after: Group)
    requires g.members == [a, b.(inFlight := Some(n), positions := map[c.key := c.offset])] && b.inFlight.None?
    ensures Ended(g, 1, c, true) == after
    ensures after == Group(g.committed[c.key := c.offset + 1], [a, b.(positions := map[c.key := c.offset + 1])])
  {
    assert map[c.key := c.offset][c.key := c.offset + 1] == map[c.key := c.offset + 1];
    after := Ended(g, 1, c, true);
  }

  /** The second member's handler is called with the message at `from`. */
  lemma OtherReads(r: State -> bool, w: Leeway, cfg: Config, s: State, topic: string, records: seq<Record>, group: string, g: Group,
                   a: Member, b: Member, from: nat) returns (t: State, n: nat)
    requires Closed(r, w, cfg, group) && r(s) && Point(s, topic, records, group, g)
    requires b == Reader(topic, [Key(topic, 1)], [], map[], None, false) && g.members == [a, b] && from < |records|
    requires if Key(topic, 1) in g.committed then g.committed[Key(topic, 1)] == from else from == 0
    ensures r(t)
    ensures Point(t, topic, records, group,
                  Group(g.committed, [a, b.(inFlight := Some(n), positions := map[Key(topic, 1) := from])]))
    ensures n < |t.calls| && t.calls[n] == Call(group, Key(topic, 1), from, records[from], Running)
  {
    var begun := b.(pass := [Key(topic, 1)]);
    t := Begins(r, w, cfg, s, topic, records, group, g, 1);
    SecondChanges(g, a, b, begun);
    t, n := Reads(r, w, cfg, t, topic, records, group, Group(g.committed, [a, begun]), 1, from);
    SecondChanges(Group(g.committed, [a, begun]), a, begun, b.(inFlight := Some(n), positions := map[Key(topic, 1) := from]));
  }

  /** It handles it. */
  lemma OtherHandles(r: State -> bool, w: Leeway, cfg: Config, s: State, topic: string, records: seq<Record>, group: string, g: Group,
                     a: Member, b: Member, from: nat) returns (t: State, done: Group)
    requires Closed(r, w, cfg, group) && r(s) && Point(s, topic, records, group, g)
    requires b == Reader(topic, [Key(topic, 1)], [], map[], None, false) && g.members == [a, b] && from < |records|
    requires if Key(topic, 1) in g.committed then g.committed[Key(topic, 1)] == from else from == 0
    ensures r(t) && Point(t, topic, records, group, done)
    ensures done == Group(g.committed[Key(topic, 1) := from + 1], [a, b.(positions := map[Key(topic, 1) := from + 1])])
    ensures Accepted(group, Key(topic, 1), from) in t.accepted
  {
    var n;
    t, n := OtherReads(r, w, cfg, s, topic, records, group, g, a, b, from);
    var c := Call(group, Key(topic, 1), from, records[from], Running);
    var waiting := Group(g.committed, [a, b.(inFlight := Some(n), positions := map[Key(topic, 1) := from])]);
    done := SecondHandled(waiting, a, b, n, c);
    t := Ends(r, w, cfg, t, topic, records, group, waiting, 1, n, c, true, done);
  }

  /** It leaves, and the first member is back where it was before the other handled the message. */
  lemma GivesBack(r: State -> bool, w: Leeway, cfg: Config, s: State, topic: string, records: seq<Record>, group: string, g: Group, a: Member, b: Member, from: nat)
    returns (t: State)
    requires Closed(r, w, cfg, group) && r(s)
    requires Point(s, topic, records, group, g) && g.members == [a, b] && a.topics == [topic] && b.inFlight.None?
    requires Key(topic, 1) in a.positions && a.positions[Key(topic, 1)] == from
    requires Key(topic, 1) in g.committed && from < g.committed[Key(topic, 1)]
    requires Accepted(group, Key(topic, 1), from) in s.accepted
    ensures r(t)
    ensures ReadsBelowCommit(t, group, 0, Key(topic, 1))
  {
    t := Leaves(r, w, cfg, s, topic, records, group, g, a, b);
  }

  /** The first member's handler is called with the first message of a partition, and rejects. */
  lemma FirstFails(r: State -> bool, w: Leeway, cfg: Config, s: State, topic: string, record: Record, group: string, g: Group, a: Member, b: Member)
    returns (t: State)
    requires w.oldPasses && Closed(r, w, cfg, group) && r(s) && Point(s, topic, [record], group, g)
    requires g == Group(map[], [a, b]) && a == Reader(topic, [Key(topic, 0)], [Key(topic, 1)], map[Key(topic, 0) := 0], None, false)
    ensures r(t)
    ensures Point(t, topic, [record], group, Group(map[], [a.(pass := [], positions := a.positions[Key(topic, 1) := 0]), b]))
  {
    var l, n := Key(topic, 1), 0;
    var failed := a.(pass := [], positions := a.positions[l := 0]);
    t, n := Reads(r, w, cfg, s, topic, [record], group, g, 0, 0);
    var waiting := failed.(inFlight := Some(n));
    FirstChanges(g, a, b, waiting);
    FirstChanges(Group(map[], [waiting, b]), waiting, b, failed);
    t := Ends(r, w, cfg, t, topic, [record], group, Group(map[], [waiting, b]), 0, n, Call(group, l, 0, record, Running), false,
              Group(map[], [failed, b]));
  }

  lemma FailsThenOther(r: State -> bool, w: Leeway, cfg: Config, s: State, topic: string, record: Record, group: string, a: Member, b: Member)
    returns (t: State)
    requires w.oldPasses && Closed(r, w, cfg, group) && r(s) && Point(s, topic, [record], group, Group(map[], [a, b]))
    requires a == Reader(topic, [Key(topic, 0)], [Key(topic, 1)], map[Key(topic, 0) := 0], None, false)
    requires b == Reader(topic, [Key(topic, 1)], [], map[], None, false)
    ensures r(t) && ReadsBelowCommit(t, group, 0, Key(topic, 1))
  {
    var l := Key(topic, 1);
    var failed, g := a.(pass := [], positions := a.positions[l := 0]), Group(map[], [a, b]);
    t := FirstFails(r, w, cfg, s, topic, record, group, g, a, b);
    t, g := OtherHandles(r, w, cfg, t, topic, [record], group, Group(map[], [failed, b]), failed, b, 0);
    t := GivesBack(r, w, cfg, t, topic, [record], group, g, failed, b.(positions := map[l := 1]), 0);
  }

  /**
   * A handler may resolve after its partition went to someone else, and leaves its member a position
   * there. The second member handles the next message, and leaves. Back with the first, that one is
   * read again although the group has committed past it.
   */
  lemma LateResolveReadsBelowCommit(r: State -> bool, w: Leeway, cfg: Config, group: string, topic: string, first: Record, second: Record)
    returns (t: State)
    requires Closed(r, w, cfg, group) && r(INITIAL) && w.lateResolves
    ensures r(t) && ReadsBelowCommit(t, group, 0, Key(topic, 1))
  {
    var records, k, l, n := [first, second], Key(topic, 0), Key(topic, 1), 0;
    t := Joined(r, w, cfg, group, topic, records);
    var a := Reader(topic, [k, l], [], map[], None, false);
    t := Begins(r, w, cfg, t, topic, records, group, Group(map[], [a]), 0);
    a := a.(pass := [k, l]);
    t := SkipsFirst(r, w, cfg, t, topic, records, group, Group(map[], [a]), a);
    a := Reader(topic, [k, l], [l], map[k := 0], None, false);
    t, n := Reads(r, w, cfg, t, topic, records, group, Group(map[], [a]), 0, 0);
    a := Reader(topic, [k, l], [], map[k := 0, l := 0], Some(n), false);
    t := JoinsToo(r, w, cfg, t, topic, records, group, Group(map[], [a]), a);
    assert Held(map[k := 0, l := 0], [k]) == map[k := 0];
    a := Reader(topic, [k], [], map[k := 0], Some(n), false);
    t := ResolvesThenOther(r, w, cfg, t, topic, first, second, group, a, Reader(topic, [l], [], map[], None, false), n);
  }

  lemma ResolvesThenOther(r: State -> bool, w: Leeway, cfg: Config, s: State, topic: string, first: Record, second: Record, group: string,
                          a: Member, b: Member, n: nat) returns (t: State)
    requires w.lateResolves
    requires Closed(r, w, cfg, group) && r(s)
    requires Point(s, topic, [first, second], group, Group(map[], [a, b]))
    requires a == Reader(topic, [Key(topic, 0)], [], map[Key(topic, 0) := 0], Some(n), false)
    requires b == Reader(topic, [Key(topic, 1)], [], map[], None, false)
    requires n < |s.calls| && s.calls[n] == Call(group, Key(topic, 1), 0, first, Running)
    ensures r(t)
    ensures ReadsBelowCommit(t, group, 0, Key(topic, 1))
  {
    var l, records := Key(topic, 1), [first, second];
    var late, g := a.(inFlight := None, positions := a.positions[l := 1]), Group(map[], [a, b]);
    assert [a, b][0 := late] == [late, b];
    t := Ends(r, w, cfg, s, topic, records, group, g, 0, n, Call(group, l, 0, first, Running), true, Group(map[l := 1], [late, b]));
    t, g := OtherHandles(r, w, cfg, t, topic, records, group, Group(map[l := 1], [late, b]), late, b, 1);
    t := GivesBack(r, w, cfg, t, topic, records, group, g, late, b.(positions := map[l := 2]), 1);
  }

  /** The states some run with this leeway reaches. */
  ghost predicate Reached(w: Leeway, cfg: Config, group: string, s: State) {
    exists actions :: Obeys(w, cfg, actions, group) && Run(cfg, actions) == s
  }

  lemma ReachedIsClosed(w: Leeway, cfg: Config, group: string)
    ensures Reached(w, cfg, group, INITIAL) && Closed(s => Reached(w, cfg, group, s), w, cfg, group)
  {
    assert Obeys(w, cfg, [], group) && Run(cfg, []) == INITIAL;
    forall s, a | Reached(w, cfg, group, s) && Permitted(w, s, group, a)
      ensures Reached(w, cfg, group, Act(cfg, s, a))
    {
      var actions :| Obeys(w, cfg, actions, group) && Run(cfg, actions) == s;
      assert (actions + [a])[..|actions|] == actions;
      assert Obeys(w, cfg, actions + [a], group) && Run(cfg, actions + [a]) == Act(cfg, s, a);
    }
  }

  /** Every run with this leeway leaves every member reading on from the group's commits. */
  ghost predicate AlwaysResumesFromCommits(w: Leeway, cfg: Config, group: string) {
    forall s :: Reached(w, cfg, group, s) ==> ResumesFromCommits(s, group)
  }

  /**
   * A member that gets a partition back resumes from what its group committed, in every run, if and
   * only if no pass outlives the assignment it began with and no handler resolves for a partition its
   * member has lost.
   */
  lemma ResumesFromCommitsIff(w: Leeway, cfg: Config, group: string)
    ensures AlwaysResumesFromCommits(w, cfg, group) <==> w == STRICT
  {
    if w == STRICT {
      forall s | Reached(w, cfg, group, s)
        ensures ResumesFromCommits(s, group)
      {
        var actions :| Obeys(w, cfg, actions, group) && Run(cfg, actions) == s;
        HoldersResumeFromCommits(cfg, actions, group);
      }
    } else {
      var record := Record(None, [], map[]);
      ReachedIsClosed(w, cfg, group);
      var s := INITIAL;
      if w.oldPasses {
        s := OldPassReadsBelowCommit(x => Reached(w, cfg, group, x), w, cfg, group, "t", record);
      } else {
        s := LateResolveReadsBelowCommit(x => Reached(w, cfg, group, x), w, cfg, group, "t", record, record);
      }
      assert Reached(w, cfg, group, s) && !ResumesFromCommits(s, group);
    }
  }
}
