/** What joining, leaving and disconnecting do to everyone else. */
module BrokerMembership {
  import opened Groups
  import opened Broker

  // ---------------------------------------------------------------- after disconnecting

  ghost predicate SameRecords(a: Logs, b: Logs) {
    forall key :: At(a, key) == At(b, key)
  }

  predicate AllAtRest(s: State) {
    forall group :: group in s.groups ==> AtRest(s.groups[group].members)
  }

  predicate AtRest(members: seq<Member>) {
    forall i :: 0 <= i < |members| ==> members[i].stopped
  }

  /** Closed, everyone stopped, and since `s` no record was written and no handler called. */
  ghost predicate Shut(s: State, t: State) {
    t.closed && AllAtRest(t) && SameRecords(s.logs, t.logs) && |t.calls| == |s.calls|
  }

  lemma {:induction false} NewTopicsAreEmpty(logs: Logs, topics: seq<string>, partitions: nat)
    ensures SameRecords(logs, WithTopics(logs, topics, partitions))
  {
    if topics != [] {
      NewTopicsAreEmpty(logs, topics[..|topics| - 1], partitions);
    }
  }

  lemma LeavingStaysShut(cfg: Config, s: State, t: State, group: string, i: nat)
    requires Shut(s, t)
    ensures Shut(s, Act(cfg, t, Leave(group, i)))
  {
    if IsMember(t, group, i) {
      var left := Without(t.groups[group].members, i);
      assert AtRest(left) by {
        assert AtRest(t.groups[group].members);
      }
      NewTopicsAreEmpty(t.logs, Subscribed(left), cfg.defaultPartitions);
    }
  }

  lemma MemberStaysShut(s: State, t: State, group: string, i: nat, m: Member)
    requires Shut(s, t) && IsMember(t, group, i) && m.stopped
    ensures Shut(s, SetMember(t, group, i, m))
  {
    assert AtRest(t.groups[group].members);
  }

  lemma SettlingStaysShut(s: State, t: State, group: string, i: nat, timedOut: bool)
    requires Shut(s, t) && IsMember(t, group, i)
    ensures Shut(s, SettleCall(t, group, i, timedOut))
  {
    assert AtRest(t.groups[group].members);
  }

  lemma StaysShut(cfg: Config, s: State, t: State, a: Action)
    requires Shut(s, t)
    ensures Shut(s, Act(cfg, t, a))
  {
    match a
    case Leave(group, i) => LeavingStaysShut(cfg, s, t, group, i);
    case Stop(group, i) =>
      if IsMember(t, group, i) {
        MemberStaysShut(s, t, group, i, MemberAt(t, group, i).(stopped := true));
      }
    case StartPass(group, i) =>
      if IsMember(t, group, i) {
        assert AtRest(t.groups[group].members);
        MemberStaysShut(s, t, group, i, MemberAt(t, group, i).(pass := MemberAt(t, group, i).holds));
      }
    case Visit(group, i) =>
      if IsMember(t, group, i) {
        assert AtRest(t.groups[group].members);
      }
    case Settle(group, i, timedOut) =>
      if IsMember(t, group, i) {
        SettlingStaysShut(s, t, group, i, timedOut);
      }
    case _ =>
  }

  /**
   * Once the broker disconnects, after any run and whatever is tried afterwards: it stays closed, every
   * member is stopped, no record is written anywhere, dead letters included, and no handler is called.
   */
  lemma {:induction false} NothingAfterDisconnect(cfg: Config, actions: seq<Action>, more: seq<Action>)
    ensures Shut(Run(cfg, actions), Run(cfg, actions + [Disconnect] + more))
  {
    var s, all := Run(cfg, actions), actions + [Disconnect] + more;
    if more == [] {
      assert all[..|all| - 1] == actions && all[|all| - 1] == Disconnect;
    } else {
      NothingAfterDisconnect(cfg, actions, more[..|more| - 1]);
      assert all[..|all| - 1] == actions + [Disconnect] + more[..|more| - 1];
      StaysShut(cfg, s, Run(cfg, all[..|all| - 1]), more[|more| - 1]);
    }
  }

  // ---------------------------------------------------------------- joining and leaving

  /** The same member but for the partitions it is dealt and the positions it keeps of those. */
  predicate SameMember(m: Member, n: Member) {
    && n.topics == m.topics && n.fromBeginning == m.fromBeginning && n.pass == m.pass
    && n.inFlight == m.inFlight && n.stopped == m.stopped
    && forall k :: k in n.positions ==> k in m.positions && n.positions[k] == m.positions[k]
  }

  /** Everyone but member `i` stays, in their order. */
  predicate OthersStay(was: seq<Member>, now: seq<Member>, i: nat)
    requires i < |was|
  {
    && |now| == |was| - 1
    && forall j :: 0 <= j < |now| ==> SameMember(was[if j < i then j else j + 1], now[j])
  }

  lemma RedealingKeepsMembers(logs: Logs, members: seq<Member>, j: nat)
    requires j < |members|
    ensures SameMember(members[j], Rebalanced(logs, members)[j])
  {
  }

  lemma RedealtAfterLeaving(logs: Logs, members: seq<Member>, i: nat)
    requires i < |members|
    ensures OthersStay(members, Rebalanced(logs, Without(members, i)), i)
  {
    var left := Without(members, i);
    forall j | 0 <= j < |left|
      ensures SameMember(members[if j < i then j else j + 1], Rebalanced(logs, left)[j])
    {
      RedealingKeepsMembers(logs, left, j);
      assert left[j] == members[if j < i then j else j + 1];
    }
  }

  /** A member that leaves takes nobody with it: the others stay, and so do the group's commits and every other group. */
  lemma LeavingTakesNobodyElse(cfg: Config, s: State, group: string, i: nat)
    requires IsMember(s, group, i)
    requires MemberAt(s, group, i).stopped && MemberAt(s, group, i).inFlight.None?
    ensures var t := Act(cfg, s, Leave(group, i));
            && t.groups.Keys == s.groups.Keys
            && OthersStay(s.groups[group].members, t.groups[group].members, i)
            && t.groups[group].committed == s.groups[group].committed
            && forall other :: other in s.groups && other != group ==> t.groups[other] == s.groups[other]
  {
    var members := s.groups[group].members;
    RedealtAfterLeaving(WithTopics(s.logs, Subscribed(Without(members, i)), cfg.defaultPartitions), members, i);
  }
}
