/** The broker as a state machine over every interleaving of its members, and why nothing is lost. */
module Broker {
  import opened Common
  import opened Groups
  import opened DeadLetters

  datatype Config = Config(deadLetters: Option<string>, defaultPartitions: nat)

  datatype CallResult = Running | Resolved | Rejected

  /** One call of a member's handler. A call outlives the wait for it: a timeout cancels nothing. */
  datatype Call = Call(group: string, key: Key, offset: nat, record: Record, result: CallResult)

  /** A message a group's subscribers all accepted. */
  datatype Accepted = Accepted(group: string, key: Key, offset: nat)

  datatype State = State(
    logs: Logs,
    groups: map<string, Group>,
    calls: seq<Call>,
    accepted: set<Accepted>,
    closed: bool)

  const INITIAL := State(map[], map[], [], {}, false)

  /** How the consumer's handling of one message ends. */
  datatype Ending =
    | Handled
    | GaveUp(partition: nat, context: Context)
    | Threw

  /**
   * One atomic step: what happens between two awaits. A member is named by its group and its
   * place in the group's join order.
   */
  datatype Action =
    | EnsureTopic(topic: string, partitions: nat)
    | Produce(key: Key, record: Record)
    | Join(group: string, topics: seq<string>, fromBeginning: bool)
    | Stop(group: string, member: nat)
    | Leave(group: string, member: nat)
    | Disconnect
    | StartPass(group: string, member: nat)
    | Visit(group: string, member: nat)
    | Finish(call: nat, ending: Ending)
    | Settle(group: string, member: nat, timedOut: bool)

  // ---------------------------------------------------------------- the steps

  predicate IsMember(s: State, group: string, i: nat) {
    group in s.groups && i < |s.groups[group].members|
  }

  function MemberAt(s: State, group: string, i: nat): Member
    requires IsMember(s, group, i)
  {
    s.groups[group].members[i]
  }

  function SetMember(s: State, group: string, i: nat, m: Member): State
    requires IsMember(s, group, i)
  {
    s.(groups := s.groups[group := s.groups[group].(members := s.groups[group].members[i := m])])
  }

  function WithTopics(logs: Logs, topics: seq<string>, partitions: nat): Logs {
    if topics == [] then logs
    else WithTopic(WithTopics(logs, topics[..|topics| - 1], partitions), topics[|topics| - 1], partitions)
  }

  /** Deals a group's partitions out again. An empty group is left alone. */
  function Rebalance(cfg: Config, s: State, group: string): State {
    if group !in s.groups || s.groups[group].members == [] then s
    else
      var g := s.groups[group];
      var logs := WithTopics(s.logs, Subscribed(g.members), cfg.defaultPartitions);
      s.(logs := logs, groups := s.groups[group := g.(members := Rebalanced(logs, g.members))])
  }

  function GroupFor(s: State, group: string): Group {
    if group in s.groups then s.groups[group] else Group(map[], [])
  }

  /** The logs after a produce that is acknowledged; a topic not seen before is created. */
  function Produced(cfg: Config, logs: Logs, key: Key, record: Record): Logs {
    var there := WithTopic(logs, key.topic, cfg.defaultPartitions);
    if Exists(there, key) then Appended(there, key, record) else there
  }

  function Without(members: seq<Member>, i: nat): seq<Member>
    requires i < |members|
  {
    members[..i] + members[i + 1..]
  }

  function AllStopped(members: seq<Member>): (r: seq<Member>)
    ensures |r| == |members| && forall i :: 0 <= i < |r| ==> r[i] == members[i].(stopped := true)
  {
    if members == [] then [] else AllStopped(members[..|members| - 1]) + [members[|members| - 1].(stopped := true)]
  }

  /** Where a member reads next: its own position, else the commit, else the start it asked for. */
  function ReadFrom(g: Group, m: Member, key: Key, log: seq<Record>): nat {
    if key in m.positions then m.positions[key]
    else if key in g.committed then g.committed[key]
    else if m.fromBeginning then 0 else |log|
  }

  /** One turn of the read loop, up to the handler call it makes. */
  function VisitNext(s: State, group: string, i: nat): State
    requires IsMember(s, group, i)
  {
    var m := MemberAt(s, group, i);
    if m.stopped || m.inFlight.Some? || m.pass == [] then s
    else
      var key := m.pass[0];
      var on := m.(pass := m.pass[1..]);
      if !Exists(s.logs, key) then SetMember(s, group, i, on)
      else
        var log := At(s.logs, key);
        var from := ReadFrom(s.groups[group], m, key, log);
        var at := on.(positions := m.positions[key := from]);
        if from >= |log| then SetMember(s, group, i, at)
        else
          SetMember(s, group, i, at.(inFlight := Some(|s.calls|)))
            .(calls := s.calls + [Call(group, key, from, log[from], Running)])
  }

  /** The consumer's handler ends: what it leaves behind, and what its promise becomes. */
  function FinishCall(cfg: Config, s: State, call: nat, ending: Ending): State
    requires call < |s.calls|
  {
    var c := s.calls[call];
    var rejected := s.(calls := s.calls[call := c.(result := Rejected)]);
    var resolved := s.(calls := s.calls[call := c.(result := Resolved)]);
    match ending
    case Handled => resolved.(accepted := s.accepted + {Accepted(c.group, c.key, c.offset)})
    case GaveUp(partition, context) =>
      if cfg.deadLetters.None? || s.closed then rejected
      else
        var target := Key(cfg.deadLetters.value, partition);
        if Exists(WithTopic(s.logs, target.topic, cfg.defaultPartitions), target)
        then resolved.(logs := Produced(cfg, s.logs, target, DeadLetter(c.record, c.group, c.key, c.offset, context)))
        else rejected
    case Threw => rejected
  }

  /** The wait for a handler ends: committed and advanced if it resolved in time, else neither. */
  function SettleCall(s: State, group: string, i: nat, timedOut: bool): State
    requires IsMember(s, group, i)
  {
    var m := MemberAt(s, group, i);
    if m.inFlight.None? || m.inFlight.value >= |s.calls| then s
    else
      var c := s.calls[m.inFlight.value];
      if timedOut || c.result == Rejected then SetMember(s, group, i, m.(inFlight := None))
      else if c.result == Running then s
      else
        var next := c.offset + 1;
        var g := s.groups[group];
        var done := m.(inFlight := None, positions := m.positions[c.key := next]);
        s.(groups := s.groups[group := Group(g.committed[c.key := next], g.members[i := done])])
  }

  function Act(cfg: Config, s: State, a: Action): State {
    match a
    case EnsureTopic(topic, partitions) => if s.closed then s else s.(logs := WithTopic(s.logs, topic, partitions))
    case Produce(key, record) => if s.closed then s else s.(logs := Produced(cfg, s.logs, key, record))
    case Join(group, topics, fromBeginning) =>
      if s.closed then s
      else
        var g := GroupFor(s, group);
        var m := Member(topics, fromBeginning, [], [], map[], None, false);
        Rebalance(cfg, s.(groups := s.groups[group := g.(members := g.members + [m])]), group)
    case Stop(group, i) =>
      if IsMember(s, group, i) then SetMember(s, group, i, MemberAt(s, group, i).(stopped := true)) else s
    case Leave(group, i) =>
      if IsMember(s, group, i) && MemberAt(s, group, i).stopped && MemberAt(s, group, i).inFlight.None? then
        var g := s.groups[group];
        Rebalance(cfg, s.(groups := s.groups[group := g.(members := Without(g.members, i))]), group)
      else s
    case Disconnect =>
      s.(closed := true, groups := map g | g in s.groups :: s.groups[g].(members := AllStopped(s.groups[g].members)))
    case StartPass(group, i) =>
      if IsMember(s, group, i) && MemberAt(s, group, i).pass == [] && MemberAt(s, group, i).inFlight.None?
      then SetMember(s, group, i, MemberAt(s, group, i).(pass := MemberAt(s, group, i).holds)) else s
    case Visit(group, i) => if IsMember(s, group, i) then VisitNext(s, group, i) else s
    case Finish(call, ending) =>
      if call < |s.calls| && s.calls[call].result == Running then FinishCall(cfg, s, call, ending) else s
    case Settle(group, i, timedOut) => if IsMember(s, group, i) then SettleCall(s, group, i, timedOut) else s
  }

  function Run(cfg: Config, actions: seq<Action>): State {
    if actions == [] then INITIAL else Act(cfg, Run(cfg, actions[..|actions| - 1]), actions[|actions| - 1])
  }

  // ---------------------------------------------------------------- what became of a message

  /** A copy of the record is on the dead-letter topic, naming where the original is and this group. */
  ghost predicate HasCopy(logs: Logs, topic: string, group: string, key: Key, offset: nat) {
    exists p: nat, q: nat :: IsCopyAt(logs, Key(topic, p), q, group, key, offset)
  }

  predicate IsCopyAt(logs: Logs, where_: Key, q: nat, group: string, key: Key, offset: nat) {
    && q < |At(logs, where_)| && offset < |At(logs, key)|
    && IsCopy(At(logs, where_)[q], At(logs, key)[offset], group, key, offset)
  }

  /** Every subscriber of the group accepted the message, or the group set a copy of it aside. */
  ghost predicate Accounted(cfg: Config, logs: Logs, accepted: set<Accepted>, group: string, key: Key, offset: nat) {
    || Accepted(group, key, offset) in accepted
    || (cfg.deadLetters.Some? && HasCopy(logs, cfg.deadLetters.value, group, key, offset))
  }

  /** Everything before `end` is accounted for. */
  ghost predicate Covered(cfg: Config, logs: Logs, accepted: set<Accepted>, group: string, key: Key, end: nat) {
    end <= |At(logs, key)| && forall o: nat :: o < end ==> Accounted(cfg, logs, accepted, group, key, o)
  }

  lemma CopyStays(old_: Logs, new_: Logs, topic: string, group: string, key: Key, offset: nat)
    requires Extends(old_, new_) && HasCopy(old_, topic, group, key, offset)
    ensures HasCopy(new_, topic, group, key, offset)
  {
    var p: nat, q: nat :| IsCopyAt(old_, Key(topic, p), q, group, key, offset);
    assert Exists(old_, Key(topic, p)) && Exists(old_, key);
    assert IsCopyAt(new_, Key(topic, p), q, group, key, offset);
  }

  lemma CoveredStays(cfg: Config, old_: Logs, was: set<Accepted>, new_: Logs, now: set<Accepted>, group: string, key: Key, end: nat)
    requires Extends(old_, new_) && was <= now && Covered(cfg, old_, was, group, key, end)
    ensures Covered(cfg, new_, now, group, key, end)
  {
    if end > 0 {
      assert Exists(old_, key);
    }
    forall o: nat | o < end
      ensures Accounted(cfg, new_, now, group, key, o)
    {
      assert Accounted(cfg, old_, was, group, key, o);
      if Accepted(group, key, o) !in was {
        CopyStays(old_, new_, cfg.deadLetters.value, group, key, o);
      }
    }
  }

  // ---------------------------------------------------------------- the invariant

  /** A call reads a real record, everything before it is accounted for, and so is it once it resolves. */
  ghost predicate CallOk(cfg: Config, logs: Logs, accepted: set<Accepted>, c: Call) {
    && c.offset < |At(logs, c.key)| && At(logs, c.key)[c.offset] == c.record
    && Covered(cfg, logs, accepted, c.group, c.key, c.offset)
    && (c.result == Resolved ==> Accounted(cfg, logs, accepted, c.group, c.key, c.offset))
  }

  ghost predicate CallsOk(cfg: Config, s: State, group: string) {
    forall i :: 0 <= i < |s.calls| && s.calls[i].group == group ==> CallOk(cfg, s.logs, s.accepted, s.calls[i])
  }

  ghost predicate OffsetsOk(cfg: Config, logs: Logs, accepted: set<Accepted>, group: string, offsets: map<Key, nat>) {
    forall key :: key in offsets ==> Covered(cfg, logs, accepted, group, key, offsets[key])
  }

  ghost predicate MemberOk(cfg: Config, logs: Logs, accepted: set<Accepted>, calls: seq<Call>, group: string, m: Member) {
    && m.fromBeginning
    && OffsetsOk(cfg, logs, accepted, group, m.positions)
    && (m.inFlight.Some? ==> m.inFlight.value < |calls| && calls[m.inFlight.value].group == group)
  }

  ghost predicate GroupOk(cfg: Config, logs: Logs, accepted: set<Accepted>, calls: seq<Call>, group: string, g: Group) {
    && OffsetsOk(cfg, logs, accepted, group, g.committed)
    && forall i :: 0 <= i < |g.members| ==> MemberOk(cfg, logs, accepted, calls, group, g.members[i])
  }

  ghost predicate Inv(cfg: Config, s: State, group: string) {
    && CallsOk(cfg, s, group)
    && GroupOk(cfg, s.logs, s.accepted, s.calls, group, GroupFor(s, group))
  }

  /** Later calls of the same state keep their group. */
  predicate CallsGrow(was: seq<Call>, now: seq<Call>) {
    |was| <= |now| && forall i :: 0 <= i < |was| ==> now[i].group == was[i].group
  }

  lemma OffsetsStay(cfg: Config, old_: Logs, was: set<Accepted>, new_: Logs, now: set<Accepted>, group: string, offsets: map<Key, nat>)
    requires Extends(old_, new_) && was <= now && OffsetsOk(cfg, old_, was, group, offsets)
    ensures OffsetsOk(cfg, new_, now, group, offsets)
  {
    forall key | key in offsets
      ensures Covered(cfg, new_, now, group, key, offsets[key])
    {
      CoveredStays(cfg, old_, was, new_, now, group, key, offsets[key]);
    }
  }

  lemma GroupStays(cfg: Config, old_: Logs, was: set<Accepted>, calls: seq<Call>,
                   new_: Logs, now: set<Accepted>, more: seq<Call>, group: string, g: Group)
    requires Extends(old_, new_) && was <= now && CallsGrow(calls, more)
    requires GroupOk(cfg, old_, was, calls, group, g)
    ensures GroupOk(cfg, new_, now, more, group, g)
  {
    OffsetsStay(cfg, old_, was, new_, now, group, g.committed);
    forall i | 0 <= i < |g.members|
      ensures MemberOk(cfg, new_, now, more, group, g.members[i])
    {
      OffsetsStay(cfg, old_, was, new_, now, group, g.members[i].positions);
    }
  }

  lemma CallStays(cfg: Config, old_: Logs, was: set<Accepted>, new_: Logs, now: set<Accepted>, c: Call)
    requires Extends(old_, new_) && was <= now && CallOk(cfg, old_, was, c)
    ensures CallOk(cfg, new_, now, c)
  {
    assert Exists(old_, c.key);
    CoveredStays(cfg, old_, was, new_, now, c.group, c.key, c.offset);
    if c.result == Resolved && Accepted(c.group, c.key, c.offset) !in was {
      CopyStays(old_, new_, cfg.deadLetters.value, c.group, c.key, c.offset);
    }
  }

  /** Growing the logs and the record of what was accepted keeps the invariant. */
  lemma GrowthKeeps(cfg: Config, s: State, t: State, group: string)
    requires Inv(cfg, s, group) && Extends(s.logs, t.logs) && s.accepted <= t.accepted
    requires t.calls == s.calls && GroupFor(t, group) == GroupFor(s, group)
    ensures Inv(cfg, t, group)
  {
    forall i | 0 <= i < |t.calls| && t.calls[i].group == group
      ensures CallOk(cfg, t.logs, t.accepted, t.calls[i])
    {
      CallStays(cfg, s.logs, s.accepted, t.logs, t.accepted, s.calls[i]);
    }
    GroupStays(cfg, s.logs, s.accepted, s.calls, t.logs, t.accepted, t.calls, group, GroupFor(s, group));
  }

  lemma {:induction false} WithTopicsExtends(logs: Logs, topics: seq<string>, partitions: nat)
    ensures Extends(logs, WithTopics(logs, topics, partitions))
  {
    if topics != [] {
      var rest := WithTopics(logs, topics[..|topics| - 1], partitions);
      WithTopicsExtends(logs, topics[..|topics| - 1], partitions);
      WithTopicExtends(rest, topics[|topics| - 1], partitions);
      ExtendsTransitive(logs, rest, WithTopics(logs, topics, partitions));
    }
  }

  lemma ExtendsTransitive(a: Logs, b: Logs, c: Logs)
    requires Extends(a, b) && Extends(b, c)
    ensures Extends(a, c)
  {
  }

  lemma ProducedExtends(cfg: Config, logs: Logs, key: Key, record: Record)
    ensures Extends(logs, Produced(cfg, logs, key, record))
  {
    var there := WithTopic(logs, key.topic, cfg.defaultPartitions);
    WithTopicExtends(logs, key.topic, cfg.defaultPartitions);
    if Exists(there, key) {
      AppendedExtends(there, key, record);
      ExtendsTransitive(logs, there, Appended(there, key, record));
    }
  }

  /** Dealing partitions again keeps the invariant: members only lose positions. */
  lemma RebalanceKeeps(cfg: Config, s: State, group: string, other: string)
    requires Inv(cfg, s, group)
    ensures Inv(cfg, Rebalance(cfg, s, other), group)
  {
    if other in s.groups && s.groups[other].members != [] {
      var g := s.groups[other];
      var logs := WithTopics(s.logs, Subscribed(g.members), cfg.defaultPartitions);
      WithTopicsExtends(s.logs, Subscribed(g.members), cfg.defaultPartitions);
      var mid := s.(logs := logs);
      GrowthKeeps(cfg, s, mid, group);
      var t := Rebalance(cfg, s, other);
      if other == group {
        forall i | 0 <= i < |g.members|
          ensures MemberOk(cfg, logs, s.accepted, s.calls, group, t.groups[group].members[i])
        {
          assert MemberOk(cfg, logs, s.accepted, s.calls, group, g.members[i]);
        }
      }
    }
  }

  lemma JoinKeeps(cfg: Config, s: State, group: string, other: string, topics: seq<string>, fromBeginning: bool)
    requires Inv(cfg, s, group) && (other == group ==> fromBeginning)
    ensures Inv(cfg, Act(cfg, s, Join(other, topics, fromBeginning)), group)
  {
    if !s.closed {
      var g := GroupFor(s, other);
      var m := Member(topics, fromBeginning, [], [], map[], None, false);
      var mid := s.(groups := s.groups[other := g.(members := g.members + [m])]);
      MemberAdded(cfg, s, group, other, m);
      RebalanceKeeps(cfg, mid, group, other);
    }
  }

  lemma MemberAdded(cfg: Config, s: State, group: string, other: string, m: Member)
    requires Inv(cfg, s, group) && (other == group ==> MemberOk(cfg, s.logs, s.accepted, s.calls, group, m))
    ensures var g := GroupFor(s, other);
            Inv(cfg, s.(groups := s.groups[other := g.(members := g.members + [m])]), group)
  {
  }

  lemma LeaveKeeps(cfg: Config, s: State, group: string, other: string, i: nat)
    requires Inv(cfg, s, group)
    ensures Inv(cfg, Act(cfg, s, Leave(other, i)), group)
  {
    if IsMember(s, other, i) && MemberAt(s, other, i).stopped && MemberAt(s, other, i).inFlight.None? {
      var g := s.groups[other];
      var mid := s.(groups := s.groups[other := g.(members := Without(g.members, i))]);
      assert forall j :: 0 <= j < |Without(g.members, i)| ==>
          Without(g.members, i)[j] == if j < i then g.members[j] else g.members[j + 1];
      assert Inv(cfg, mid, group);
      RebalanceKeeps(cfg, mid, group, other);
    }
  }

  /** Replacing one member by another that is sound keeps the invariant. */
  lemma SetMemberKeeps(cfg: Config, s: State, group: string, other: string, i: nat, m: Member)
    requires Inv(cfg, s, group) && IsMember(s, other, i)
    requires other == group ==> MemberOk(cfg, s.logs, s.accepted, s.calls, group, m)
    ensures Inv(cfg, SetMember(s, other, i, m), group)
  {
  }

  lemma ReadFromIsCovered(cfg: Config, s: State, group: string, i: nat, key: Key)
    requires Inv(cfg, s, group) && IsMember(s, group, i)
    ensures var from := ReadFrom(s.groups[group], MemberAt(s, group, i), key, At(s.logs, key));
            Covered(cfg, s.logs, s.accepted, group, key, from)
  {
    assert MemberOk(cfg, s.logs, s.accepted, s.calls, group, MemberAt(s, group, i));
  }

  lemma VisitKeeps(cfg: Config, s: State, group: string, other: string, i: nat)
    requires Inv(cfg, s, group) && IsMember(s, other, i)
    ensures Inv(cfg, VisitNext(s, other, i), group)
  {
    var m := MemberAt(s, other, i);
    if !m.stopped && m.inFlight.None? && m.pass != [] {
      var key := m.pass[0];
      var on := m.(pass := m.pass[1..]);
      var log := At(s.logs, key);
      var from := ReadFrom(s.groups[other], m, key, log);
      var at := on.(positions := m.positions[key := from]);
      if other == group {
        ReadFromIsCovered(cfg, s, group, i, key);
        assert MemberOk(cfg, s.logs, s.accepted, s.calls, group, m);
        assert MemberOk(cfg, s.logs, s.accepted, s.calls, group, at);
      }
      if !Exists(s.logs, key) {
        SetMemberKeeps(cfg, s, group, other, i, on);
      } else if from >= |log| {
        SetMemberKeeps(cfg, s, group, other, i, at);
      } else {
        var c := Call(other, key, from, log[from], Running);
        CallAdded(cfg, s, group, c);
        SetMemberKeeps(cfg, s.(calls := s.calls + [c]), group, other, i, at.(inFlight := Some(|s.calls|)));
      }
    }
  }

  lemma CallAdded(cfg: Config, s: State, group: string, c: Call)
    requires Inv(cfg, s, group) && (c.group == group ==> CallOk(cfg, s.logs, s.accepted, c))
    ensures Inv(cfg, s.(calls := s.calls + [c]), group)
  {
    GroupStays(cfg, s.logs, s.accepted, s.calls, s.logs, s.accepted, s.calls + [c], group, GroupFor(s, group));
  }

  lemma CallChanged(cfg: Config, s: State, group: string, i: nat, c: Call)
    requires Inv(cfg, s, group) && i < |s.calls| && c.group == s.calls[i].group
    requires c.group == group ==> CallOk(cfg, s.logs, s.accepted, c)
    ensures Inv(cfg, s.(calls := s.calls[i := c]), group)
  {
    GroupStays(cfg, s.logs, s.accepted, s.calls, s.logs, s.accepted, s.calls[i := c], group, GroupFor(s, group));
  }

  /** The copy a dead-lettering leaves accounts for the message. */
  lemma SetAsideIsAccounted(cfg: Config, logs: Logs, accepted: set<Accepted>, c: Call, target: Key, context: Context)
    requires cfg.deadLetters == Some(target.topic)
    requires Exists(WithTopic(logs, target.topic, cfg.defaultPartitions), target)
    requires c.offset < |At(logs, c.key)| && At(logs, c.key)[c.offset] == c.record
    ensures Accounted(cfg, Produced(cfg, logs, target, DeadLetter(c.record, c.group, c.key, c.offset, context)), accepted,
                      c.group, c.key, c.offset)
  {
    var there := WithTopic(logs, target.topic, cfg.defaultPartitions);
    var copy := DeadLetter(c.record, c.group, c.key, c.offset, context);
    var after := Produced(cfg, logs, target, copy);
    AppendedExtends(there, target, copy);
    ProducedExtends(cfg, logs, target, copy);
    assert Exists(logs, c.key);
    DeadLetterIsCopy(c.record, c.group, c.key, c.offset, context);
    assert IsCopyAt(after, Key(target.topic, target.partition), |At(there, target)|, c.group, c.key, c.offset);
  }

  lemma FinishKeeps(cfg: Config, s: State, group: string, call: nat, ending: Ending)
    requires Inv(cfg, s, group) && call < |s.calls| && s.calls[call].result == Running
    ensures Inv(cfg, FinishCall(cfg, s, call, ending), group)
  {
    var c := s.calls[call];
    var t := FinishCall(cfg, s, call, ending);
    if t.calls[call].result == Rejected {
      CallChanged(cfg, s, group, call, c.(result := Rejected));
    } else {
      var mid := s.(logs := t.logs, accepted := t.accepted);
      if ending.GaveUp? {
        var target := Key(cfg.deadLetters.value, ending.partition);
        ProducedExtends(cfg, s.logs, target, DeadLetter(c.record, c.group, c.key, c.offset, ending.context));
        if c.group == group {
          SetAsideIsAccounted(cfg, s.logs, s.accepted, c, target, ending.context);
        }
      }
      GrowthKeeps(cfg, s, mid, group);
      CallChanged(cfg, mid, group, call, c.(result := Resolved));
    }
  }

  lemma SettleKeeps(cfg: Config, s: State, group: string, other: string, i: nat, timedOut: bool)
    requires Inv(cfg, s, group) && IsMember(s, other, i)
    ensures Inv(cfg, SettleCall(s, other, i, timedOut), group)
  {
    var m := MemberAt(s, other, i);
    if other == group {
      assert MemberOk(cfg, s.logs, s.accepted, s.calls, group, m);
      if m.inFlight.Some? {
        var c := s.calls[m.inFlight.value];
        assert CallOk(cfg, s.logs, s.accepted, c);
        if c.result == Resolved {
          OneMore(cfg, s.logs, s.accepted, group, c.key, c.offset);
        }
      }
    }
  }

  lemma OneMore(cfg: Config, logs: Logs, accepted: set<Accepted>, group: string, key: Key, offset: nat)
    requires Covered(cfg, logs, accepted, group, key, offset) && offset < |At(logs, key)|
    requires Accounted(cfg, logs, accepted, group, key, offset)
    ensures Covered(cfg, logs, accepted, group, key, offset + 1)
  {
  }

  /** Members of the group ask for the retained log when they join. */
  predicate FromBeginning(a: Action, group: string) {
    a.Join? && a.group == group ==> a.fromBeginning
  }

  lemma ActKeeps(cfg: Config, s: State, group: string, a: Action)
    requires Inv(cfg, s, group) && FromBeginning(a, group)
    ensures Inv(cfg, Act(cfg, s, a), group)
  {
    match a
    case EnsureTopic(topic, partitions) =>
      WithTopicExtends(s.logs, topic, partitions);
      GrowthKeeps(cfg, s, s.(logs := WithTopic(s.logs, topic, partitions)), group);
    case Produce(key, record) =>
      ProducedExtends(cfg, s.logs, key, record);
      GrowthKeeps(cfg, s, s.(logs := Produced(cfg, s.logs, key, record)), group);
    case Join(other, topics, fromBeginning) => JoinKeeps(cfg, s, group, other, topics, fromBeginning);
    case Stop(other, i) =>
    case Leave(other, i) => LeaveKeeps(cfg, s, group, other, i);
    case Disconnect =>
    case StartPass(other, i) =>
    case Visit(other, i) =>
      if IsMember(s, other, i) {
        VisitKeeps(cfg, s, group, other, i);
      }
    case Finish(call, ending) =>
      if call < |s.calls| && s.calls[call].result == Running {
        FinishKeeps(cfg, s, group, call, ending);
      }
    case Settle(other, i, timedOut) =>
      if IsMember(s, other, i) {
        SettleKeeps(cfg, s, group, other, i, timedOut);
      }
  }

  lemma {:induction false} RunKeeps(cfg: Config, actions: seq<Action>, group: string)
    requires forall i :: 0 <= i < |actions| ==> FromBeginning(actions[i], group)
    ensures Inv(cfg, Run(cfg, actions), group)
  {
    if actions != [] {
      RunKeeps(cfg, actions[..|actions| - 1], group);
      ActKeeps(cfg, Run(cfg, actions[..|actions| - 1]), group, actions[|actions| - 1]);
    }
  }

  /** Somewhere the group has moved past an offset: its commit, or a member's read position. */
  predicate MovedPast(s: State, group: string, key: Key, offset: nat) {
    var g := GroupFor(s, group);
    || (key in g.committed && offset < g.committed[key])
    || exists i :: 0 <= i < |g.members| && key in g.members[i].positions && offset < g.members[i].positions[key]
  }

  /**
   * No loss. Over every interleaving, whatever a group that reads from the beginning has moved
   * past was accepted by every subscriber, or has a copy with the same key and bytes on the
   * dead-letter topic that names this group.
   */
  lemma NothingIsLost(cfg: Config, actions: seq<Action>, group: string, key: Key, offset: nat)
    requires forall i :: 0 <= i < |actions| ==> FromBeginning(actions[i], group)
    ensures var s := Run(cfg, actions);
            MovedPast(s, group, key, offset) ==>
              offset < |At(s.logs, key)| && Accounted(cfg, s.logs, s.accepted, group, key, offset)
  {
    var s := Run(cfg, actions);
    RunKeeps(cfg, actions, group);
    var g := GroupFor(s, group);
    if MovedPast(s, group, key, offset) && !(key in g.committed && offset < g.committed[key]) {
      var i :| 0 <= i < |g.members| && key in g.members[i].positions && offset < g.members[i].positions[key];
      assert MemberOk(cfg, s.logs, s.accepted, s.calls, group, g.members[i]);
    }
  }

  /** With dead-lettering off, moving past a message means its subscribers accepted it. */
  lemma WithoutDeadLettersAllAccepted(cfg: Config, actions: seq<Action>, group: string, key: Key, offset: nat)
    requires cfg.deadLetters == None
    requires forall i :: 0 <= i < |actions| ==> FromBeginning(actions[i], group)
    ensures var s := Run(cfg, actions); MovedPast(s, group, key, offset) ==> Accepted(group, key, offset) in s.accepted
  {
    NothingIsLost(cfg, actions, group, key, offset);
  }

  // ---------------------------------------------------------------- order within a partition

  /**
   * Order. Over every interleaving, a message that is neither accepted by every subscriber nor set
   * aside holds its partition up: no later message of it has been handed to the group's handlers.
   */
  lemma UnaccountedHoldsUpThePartition(cfg: Config, actions: seq<Action>, group: string, key: Key, offset: nat)
    requires forall i :: 0 <= i < |actions| ==> FromBeginning(actions[i], group)
    ensures var s := Run(cfg, actions);
            !Accounted(cfg, s.logs, s.accepted, group, key, offset) ==>
              forall i :: 0 <= i < |s.calls| && s.calls[i].group == group && s.calls[i].key == key ==> s.calls[i].offset <= offset
  {
    var s := Run(cfg, actions);
    RunKeeps(cfg, actions, group);
    forall i | 0 <= i < |s.calls| && s.calls[i].group == group && s.calls[i].key == key && s.calls[i].offset > offset
      ensures Accounted(cfg, s.logs, s.accepted, group, key, offset)
    {
      assert CallOk(cfg, s.logs, s.accepted, s.calls[i]);
    }
  }

  /**
   * At any point of any run, a member between calls hands its handler the record at its read position
   * in the partition it visits (its own, else the commit, else the start), exactly when there is one,
   * and everything before that record is accounted for.
   */
  lemma VisitReadsNext(cfg: Config, actions: seq<Action>, group: string, i: nat)
    requires forall j :: 0 <= j < |actions| ==> FromBeginning(actions[j], group)
    requires IsMember(Run(cfg, actions), group, i)
    requires var s := Run(cfg, actions);
             var m := MemberAt(s, group, i);
             !m.stopped && m.inFlight.None? && m.pass != [] && Exists(s.logs, m.pass[0])
    ensures var s := Run(cfg, actions);
            var key := MemberAt(s, group, i).pass[0];
            var from := ReadFrom(s.groups[group], MemberAt(s, group, i), key, At(s.logs, key));
            var t := Act(cfg, s, Visit(group, i));
            && Covered(cfg, s.logs, s.accepted, group, key, from)
            && (from < |At(s.logs, key)| ==>
                  t.calls == s.calls + [Call(group, key, from, At(s.logs, key)[from], Running)]
                  && MemberAt(t, group, i).inFlight == Some(|s.calls|))
            && (from >= |At(s.logs, key)| ==>
                  t.calls == s.calls && MemberAt(t, group, i).inFlight == None
                  && Covered(cfg, s.logs, s.accepted, group, key, |At(s.logs, key)|))
  {
    var s := Run(cfg, actions);
    RunKeeps(cfg, actions, group);
    ReadFromIsCovered(cfg, s, group, i, MemberAt(s, group, i).pass[0]);
  }

  /** While a call is waited for, its member stands at the message it was made for, or nowhere. */
  predicate Stands(m: Member, calls: seq<Call>) {
    m.inFlight.Some? ==>
      && m.inFlight.value < |calls|
      && var c := calls[m.inFlight.value]; c.key in m.positions ==> m.positions[c.key] == c.offset
  }

  predicate AllStand(members: seq<Member>, calls: seq<Call>) {
    forall i :: 0 <= i < |members| ==> Stands(members[i], calls)
  }

  predicate Standing(s: State) {
    forall group :: group in s.groups ==> AllStand(s.groups[group].members, s.calls)
  }

  /** Calls are added and finish, and are about the message they were made for. */
  predicate SameReads(was: seq<Call>, now: seq<Call>) {
    |was| <= |now| && forall i :: 0 <= i < |was| ==> now[i].key == was[i].key && now[i].offset == was[i].offset
  }

  lemma StandingStays(s: State, calls: seq<Call>)
    requires Standing(s) && SameReads(s.calls, calls)
    ensures Standing(s.(calls := calls))
  {
    forall group | group in s.groups
      ensures AllStand(s.groups[group].members, calls)
    {
      assert AllStand(s.groups[group].members, s.calls);
    }
  }

  lemma MembersStand(s: State, group: string, g: Group)
    requires Standing(s) && AllStand(g.members, s.calls)
    ensures Standing(s.(groups := s.groups[group := g]))
  {
  }

  lemma RebalanceStands(cfg: Config, s: State, group: string)
    requires Standing(s)
    ensures Standing(Rebalance(cfg, s, group))
  {
    if group in s.groups && s.groups[group].members != [] {
      var g := s.groups[group];
      var logs := WithTopics(s.logs, Subscribed(g.members), cfg.defaultPartitions);
      assert AllStand(g.members, s.calls);
      assert AllStand(Rebalanced(logs, g.members), s.calls);
      MembersStand(s.(logs := logs), group, g.(members := Rebalanced(logs, g.members)));
    }
  }

  lemma MemberStands(s: State, group: string, i: nat, m: Member)
    requires Standing(s) && IsMember(s, group, i) && Stands(m, s.calls)
    ensures Standing(SetMember(s, group, i, m))
  {
    assert AllStand(s.groups[group].members, s.calls);
    MembersStand(s, group, s.groups[group].(members := s.groups[group].members[i := m]));
  }

  lemma VisitStands(s: State, group: string, i: nat)
    requires Standing(s) && IsMember(s, group, i)
    ensures Standing(VisitNext(s, group, i))
  {
    var m, t := MemberAt(s, group, i), VisitNext(s, group, i);
    if m.inFlight.None? && t != s {
      StandingStays(s, t.calls);
      MemberStands(s.(calls := t.calls), group, i, MemberAt(t, group, i));
    }
  }

  lemma SettleStands(s: State, group: string, i: nat, timedOut: bool)
    requires Standing(s) && IsMember(s, group, i)
    ensures Standing(SettleCall(s, group, i, timedOut))
  {
    var t := SettleCall(s, group, i, timedOut);
    if t != s {
      assert AllStand(s.groups[group].members, s.calls);
      assert AllStand(t.groups[group].members, s.calls);
      MembersStand(s, group, t.groups[group]);
    }
  }

  lemma JoinStands(cfg: Config, s: State, group: string, m: Member)
    requires Standing(s) && m.inFlight.None?
    ensures var g := GroupFor(s, group);
            Standing(Rebalance(cfg, s.(groups := s.groups[group := g.(members := g.members + [m])]), group))
  {
    var g := GroupFor(s, group);
    assert AllStand(g.members, s.calls);
    MembersStand(s, group, g.(members := g.members + [m]));
    RebalanceStands(cfg, s.(groups := s.groups[group := g.(members := g.members + [m])]), group);
  }

  lemma LeaveStands(cfg: Config, s: State, group: string, i: nat)
    requires Standing(s) && IsMember(s, group, i)
    ensures var g := s.groups[group];
            Standing(Rebalance(cfg, s.(groups := s.groups[group := g.(members := Without(g.members, i))]), group))
  {
    var g := s.groups[group];
    assert AllStand(g.members, s.calls);
    assert AllStand(Without(g.members, i), s.calls);
    MembersStand(s, group, g.(members := Without(g.members, i)));
    RebalanceStands(cfg, s.(groups := s.groups[group := g.(members := Without(g.members, i))]), group);
  }

  lemma DisconnectStands(cfg: Config, s: State)
    requires Standing(s)
    ensures Standing(Act(cfg, s, Disconnect))
  {
    forall group | group in s.groups
      ensures AllStand(AllStopped(s.groups[group].members), s.calls)
    {
      assert AllStand(s.groups[group].members, s.calls);
    }
  }

  /** Beginning a pass and being told to stop move no position. */
  lemma PassStands(s: State, group: string, i: nat, pass: seq<Key>, stopped: bool)
    requires Standing(s) && IsMember(s, group, i)
    ensures Standing(SetMember(s, group, i, MemberAt(s, group, i).(pass := pass, stopped := stopped)))
  {
    assert AllStand(s.groups[group].members, s.calls);
    MemberStands(s, group, i, MemberAt(s, group, i).(pass := pass, stopped := stopped));
  }

  lemma ActStands(cfg: Config, s: State, a: Action)
    requires Standing(s)
    ensures Standing(Act(cfg, s, a))
  {
    match a
    case Join(group, topics, fromBeginning) =>
      JoinStands(cfg, s, group, Member(topics, fromBeginning, [], [], map[], None, false));
    case Stop(group, i) =>
      if IsMember(s, group, i) {
        PassStands(s, group, i, MemberAt(s, group, i).pass, true);
      }
    case Leave(group, i) =>
      if IsMember(s, group, i) {
        LeaveStands(cfg, s, group, i);
      }
    case Disconnect => DisconnectStands(cfg, s);
    case StartPass(group, i) =>
      if IsMember(s, group, i) {
        PassStands(s, group, i, MemberAt(s, group, i).holds, MemberAt(s, group, i).stopped);
      }
    case Visit(group, i) =>
      if IsMember(s, group, i) {
        VisitStands(s, group, i);
      }
    case Finish(call, ending) => StandingStays(s, Act(cfg, s, a).calls);
    case Settle(group, i, timedOut) =>
      if IsMember(s, group, i) {
        SettleStands(s, group, i, timedOut);
      }
    case _ =>
  }

  lemma {:induction false} RunStands(cfg: Config, actions: seq<Action>)
    ensures Standing(Run(cfg, actions))
  {
    if actions != [] {
      RunStands(cfg, actions[..|actions| - 1]);
      ActStands(cfg, Run(cfg, actions[..|actions| - 1]), actions[|actions| - 1]);
    }
  }

  /** Where a member reads next. */
  function NextOffset(s: State, group: string, i: nat, key: Key): nat
    requires IsMember(s, group, i)
  {
    ReadFrom(s.groups[group], MemberAt(s, group, i), key, At(s.logs, key))
  }

  /** What the end of the wait for a call does to its member and its group. */
  predicate Settled(s: State, t: State, group: string, i: nat, c: Call, timedOut: bool)
    requires IsMember(s, group, i) && IsMember(t, group, i)
  {
    var was, now := s.groups[group].committed, t.groups[group].committed;
    && t.logs == s.logs && t.calls == s.calls
    && (!timedOut && c.result == Running ==> t == s)
    && (timedOut || c.result != Running ==> MemberAt(t, group, i).inFlight.None?)
    && (!timedOut && c.result == Resolved ==> now == was[c.key := c.offset + 1] && NextOffset(t, group, i, c.key) == c.offset + 1)
    && (timedOut || c.result == Rejected ==>
          now == was && (c.key in MemberAt(s, group, i).positions ==> NextOffset(t, group, i, c.key) == c.offset))
  }

  lemma SettlesAs(s: State, group: string, i: nat, timedOut: bool)
    requires IsMember(s, group, i) && MemberAt(s, group, i).inFlight.Some? && Stands(MemberAt(s, group, i), s.calls)
    ensures IsMember(SettleCall(s, group, i, timedOut), group, i)
    ensures Settled(s, SettleCall(s, group, i, timedOut), group, i, s.calls[MemberAt(s, group, i).inFlight.value], timedOut)
  {
  }

  /**
   * At any point of any run: a handler that resolved in time moves its group and its member past the
   * message; one that rejected or was not waited for moves neither, and the member reads the very same
   * offset again, unless a rebalance took its read position while the call was running.
   */
  lemma SettlingMovesOnOrReadsAgain(cfg: Config, actions: seq<Action>, group: string, i: nat, timedOut: bool)
    requires IsMember(Run(cfg, actions), group, i)
    requires MemberAt(Run(cfg, actions), group, i).inFlight.Some?
    ensures var s := Run(cfg, actions);
            var t := Act(cfg, s, Settle(group, i, timedOut));
            var call := MemberAt(s, group, i).inFlight.value;
            && IsMember(t, group, i) && call < |s.calls|
            && Settled(s, t, group, i, s.calls[call], timedOut)
  {
    var s := Run(cfg, actions);
    RunStands(cfg, actions);
    assert AllStand(s.groups[group].members, s.calls);
    SettlesAs(s, group, i, timedOut);
  }
}
