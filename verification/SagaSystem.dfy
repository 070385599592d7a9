/**
 * Any number of runners over the saga rows, interleaved one atomic statement at a time, and
 * the proof that each row still lives one run of the sequential machine.
 *
 * Nothing is assumed about clocks: every action carries its own, arbitrary, `now`. Owner ids
 * are fresh, and all runners hold the same definitions.
 */
module SagaSystem {
  import opened Backoff
  import opened Common
  import opened SagaDefinition
  import opened SagaMachine
  import opened SagaRows
  import opened SagaShape

  /** What a runner has in memory about one saga it claimed. */
  datatype Local =
    | Holding(rec: Record)
    | Ready(rec: Record, turn: Turn, progress: Progress)

  /**
   * The rows, each runner's memory, and the owner ids handed out so far. `started` and `landed`
   * only keep account: how each row began and the turns whose saves reached it.
   */
  datatype System = System(
    rows: map<Id, Row>,
    runners: map<Owner, map<Id, Local>>,
    used: set<Owner>,
    started: map<Id, Record>,
    landed: map<Id, seq<Turn>>)

  datatype Action =
    | Begin(id: Id, name: string, state: State, now: Time)
      /** `claim` with one id, `claimDue` with a batch: takes the claimable ones among `ids`. */
    | Take(owner: Owner, ids: set<Id>, now: Time)
      /** Runs the step body and decides what to write. */
    | Work(owner: Owner, id: Id, turn: Turn)
    | Save(owner: Owner, id: Id, now: Time)
    | Crash(owner: Owner)

  datatype Config = Config(registry: map<string, Definition>, policy: Policy, leaseMs: nat)

  ghost predicate ValidConfig(c: Config) {
    forall name :: name in c.registry ==> c.registry[name].name == name && WellFormed(c.registry[name])
  }

  const EMPTY := System(map[], map[], {}, map[], map[])

  function Forget(s: System, owner: Owner, id: Id): System
    requires owner in s.runners
  {
    s.(runners := s.runners[owner := s.runners[owner] - {id}])
  }

  function Remember(s: System, owner: Owner, id: Id, l: Local): System
    requires owner in s.runners
  {
    s.(runners := s.runners[owner := s.runners[owner][id := l]])
  }

  function TakeRows(c: Config, s: System, owner: Owner, ids: set<Id>, now: Time): System {
    if owner in s.used then s
    else
      var taken := ids * Due(s.rows, now);
      var lease := Lease(owner, now, c.leaseMs);
      s.(rows := map id | id in s.rows :: if id in taken then Leased(s.rows[id], lease) else s.rows[id],
         runners := s.runners[owner := map id | id in taken :: Holding(s.rows[id].rec)],
         used := s.used + {owner})
  }

  predicate IsHolding(s: System, owner: Owner, id: Id) {
    owner in s.runners && id in s.runners[owner] && s.runners[owner][id].Holding? && id in s.rows
  }

  predicate IsReady(s: System, owner: Owner, id: Id) {
    owner in s.runners && id in s.runners[owner] && s.runners[owner][id].Ready? && id in s.rows && id in s.landed
  }

  /** One iteration of `drive` up to the save: stop if terminal, give up if unrunnable, else work. */
  function WorkOn(c: Config, s: System, owner: Owner, id: Id, turn: Turn): System
    requires IsHolding(s, owner, id)
  {
    var r := s.runners[owner][id].rec;
    if IsTerminal(r.status) then Forget(s, owner, id)
    else if r.name !in c.registry || StepOnce(c.registry[r.name], c.policy, r, turn).Err? then
      Forget(s, owner, id).(rows := s.rows[id := Row(Abandoned(s.rows[id].rec, CANNOT_ADVANCE), None, None)])
    else Remember(s, owner, id, Ready(r, turn, StepOnce(c.registry[r.name], c.policy, r, turn).value))
  }

  /** The fenced write: it lands only while the row is leased to this very owner. */
  function SaveWork(c: Config, s: System, owner: Owner, id: Id, now: Time): System
    requires IsReady(s, owner, id)
  {
    var l := s.runners[owner][id];
    if s.rows[id].lockedBy != Some(owner) then Forget(s, owner, id)
    else
      var row := SavedRow(s.rows[id], Lease(owner, now, c.leaseMs), l.progress);
      var s' := if l.progress.release then Forget(s, owner, id) else Remember(s, owner, id, Holding(row.rec));
      s'.(rows := s.rows[id := row], landed := s.landed[id := s.landed[id] + [l.turn]])
  }

  function Act(c: Config, s: System, a: Action): System {
    match a
    case Begin(id, name, state, now) =>
      if id in s.rows || name !in c.registry then s
      else
        s.(rows := s.rows[id := Row(Start(name, state, now), None, None)],
           started := s.started[id := Start(name, state, now)],
           landed := s.landed[id := []])
    case Take(owner, ids, now) => TakeRows(c, s, owner, ids, now)
    case Work(owner, id, turn) => if IsHolding(s, owner, id) then WorkOn(c, s, owner, id, turn) else s
    case Save(owner, id, now) => if IsReady(s, owner, id) then SaveWork(c, s, owner, id, now) else s
    case Crash(owner) => s.(runners := s.runners - {owner})
  }

  function Exec(c: Config, actions: seq<Action>): System {
    if actions == [] then EMPTY
    else Act(c, Exec(c, actions[..|actions| - 1]), actions[|actions| - 1])
  }

  // ---------------------------------------------------------------- invariant

  /** The record row `id` had after its first `k` landed saves. */
  function Past(c: Config, s: System, id: Id, k: nat): Record
    requires id in s.started && id in s.landed && k <= |s.landed[id]|
    requires s.started[id].name in c.registry
  {
    Run(c.registry[s.started[id].name], c.policy, s.started[id], s.landed[id][..k])
  }

  predicate RowOk(c: Config, s: System, id: Id) {
    && id in s.rows && id in s.started && id in s.landed
    && s.started[id] == Start(s.started[id].name, s.started[id].state, s.started[id].nextAttemptAt)
    && s.started[id].name in c.registry
    && s.rows[id].rec == Past(c, s, id, |s.landed[id]|)
    && |s.rows[id].rec.log| == |s.landed[id]|
    && (s.rows[id].lockedBy.Some? ==> s.rows[id].lockedBy.value in s.used)
  }

  /**
   * A runner's copy is some past version of the row, and the current one if the row is still
   * leased to it; a decision it is about to save was computed from that copy.
   */
  ghost predicate LocalOk(c: Config, s: System, owner: Owner, id: Id) {
    && owner in s.used
    && owner in s.runners && id in s.runners[owner]
    && RowOk(c, s, id)
    && var l := s.runners[owner][id];
       && (exists k: nat :: k <= |s.landed[id]| && l.rec == Past(c, s, id, k))
       && (s.rows[id].lockedBy == Some(owner) ==> l.rec == s.rows[id].rec)
       && (l.Ready? ==>
             && !IsTerminal(l.rec.status)
             && l.rec.name in c.registry
             && StepOnce(c.registry[l.rec.name], c.policy, l.rec, l.turn) == Ok(l.progress))
  }

  ghost predicate Inv(c: Config, s: System) {
    && s.started.Keys == s.rows.Keys == s.landed.Keys
    && s.runners.Keys <= s.used
    && (forall id :: id in s.rows ==> RowOk(c, s, id))
    && (forall owner, id :: owner in s.runners && id in s.runners[owner] ==> LocalOk(c, s, owner, id))
  }

  lemma RunKeepsName(d: Definition, policy: Policy, r: Record, turns: seq<Turn>)
    ensures Run(d, policy, r, turns).name == r.name
  {
  }

  /** A past version has its row's name and the shape of its status. */
  lemma PastShape(c: Config, s: System, id: Id, k: nat)
    requires ValidConfig(c) && RowOk(c, s, id) && k <= |s.landed[id]|
    ensures var r := Past(c, s, id, k);
            r.name == s.started[id].name && Shape(c.registry[r.name], c.policy, r)
  {
    var name := s.started[id].name;
    RunKeepsName(c.registry[name], c.policy, s.started[id], s.landed[id][..k]);
    ReachableShape(c.registry[name], c.policy, s.started[id], s.landed[id][..k]);
  }

  lemma BeginKeeps(c: Config, s: System, a: Action)
    requires Inv(c, s) && a.Begin?
    ensures Inv(c, Act(c, s, a))
  {
    var s' := Act(c, s, a);
    if s' != s {
      assert RowOk(c, s', a.id);
      forall owner, id | owner in s'.runners && id in s'.runners[owner]
        ensures LocalOk(c, s', owner, id)
      {
        assert LocalOk(c, s, owner, id);
        var k: nat :| k <= |s.landed[id]| && s.runners[owner][id].rec == Past(c, s, id, k);
        assert Past(c, s', id, k) == Past(c, s, id, k);
      }
    }
  }

  lemma TakeKeeps(c: Config, s: System, a: Action)
    requires Inv(c, s) && a.Take?
    ensures Inv(c, Act(c, s, a))
  {
    var s' := Act(c, s, a);
    if a.owner !in s.used {
      forall owner, id | owner in s'.runners && id in s'.runners[owner]
        ensures LocalOk(c, s', owner, id)
      {
        assert RowOk(c, s, id) && RowOk(c, s', id);
        if owner == a.owner {
          assert s'.runners[owner][id].rec == Past(c, s', id, |s.landed[id]|);
        } else {
          assert LocalOk(c, s, owner, id);
          var k: nat :| k <= |s.landed[id]| && s.runners[owner][id].rec == Past(c, s, id, k);
          assert s'.runners[owner][id].rec == Past(c, s', id, k);
        }
      }
    }
  }

  /** Working never abandons a row: whatever version a runner holds, the step can be run. */
  lemma WorkIsAlwaysPossible(c: Config, s: System, owner: Owner, id: Id, turn: Turn)
    requires ValidConfig(c) && Inv(c, s) && IsHolding(s, owner, id)
    ensures var r := s.runners[owner][id].rec;
            r.name in c.registry && (!IsTerminal(r.status) ==> StepOnce(c.registry[r.name], c.policy, r, turn).Ok?)
  {
    assert LocalOk(c, s, owner, id);
    var r := s.runners[owner][id].rec;
    var k: nat :| k <= |s.landed[id]| && r == Past(c, s, id, k);
    PastShape(c, s, id, k);
    NextKeepsShape(c.registry[r.name], c.policy, r, turn);
  }

  lemma WorkKeeps(c: Config, s: System, a: Action)
    requires ValidConfig(c) && Inv(c, s) && a.Work?
    ensures Inv(c, Act(c, s, a))
    ensures Act(c, s, a).rows == s.rows && Act(c, s, a).landed == s.landed
  {
    if IsHolding(s, a.owner, a.id) {
      WorkIsAlwaysPossible(c, s, a.owner, a.id, a.turn);
      OnlyLocalsChange(c, s, Act(c, s, a), a.owner, a.id);
    }
  }

  /** Changing what one runner remembers about one saga, consistently, keeps the invariant. */
  lemma OnlyLocalsChange(c: Config, s: System, s': System, owner: Owner, id: Id)
    requires Inv(c, s) && owner in s.runners && id in s.runners[owner]
    requires s' == s.(runners := s'.runners)
    requires s'.runners.Keys == s.runners.Keys
    requires forall o :: o in s.runners && o != owner ==> s'.runners[o] == s.runners[o]
    requires s'.runners[owner].Keys <= s.runners[owner].Keys
    requires forall i :: i in s'.runners[owner] && i != id ==> s'.runners[owner][i] == s.runners[owner][i]
    requires id in s'.runners[owner] ==>
               var l := s'.runners[owner][id];
               && l.rec == s.runners[owner][id].rec
               && (l.Ready? ==> !IsTerminal(l.rec.status) && l.rec.name in c.registry
                                && StepOnce(c.registry[l.rec.name], c.policy, l.rec, l.turn) == Ok(l.progress))
    ensures Inv(c, s')
  {
    forall i | i in s'.rows ensures RowOk(c, s', i) {
      assert RowOk(c, s, i);
    }
    forall o, i | o in s'.runners && i in s'.runners[o]
      ensures LocalOk(c, s', o, i)
    {
      assert LocalOk(c, s, o, i);
      var k: nat :| k <= |s.landed[i]| && s.runners[o][i].rec == Past(c, s, i, k);
      assert s'.runners[o][i].rec == Past(c, s', i, k);
    }
  }

  /** A save that lands was computed from exactly the record it overwrites. */
  lemma LandedSave(c: Config, s: System, owner: Owner, id: Id, now: Time)
    requires ValidConfig(c) && Inv(c, s) && IsReady(s, owner, id)
    requires s.rows[id].lockedBy == Some(owner)
    ensures var s' := SaveWork(c, s, owner, id, now);
            var before := s.rows[id].rec;
            && before == s.runners[owner][id].rec
            && before.name in c.registry && !IsTerminal(before.status)
            && s'.rows[id].rec == Next(c.registry[before.name], c.policy, before, s.runners[owner][id].turn)
            && s'.landed[id] == s.landed[id] + [s.runners[owner][id].turn]
            && RowOk(c, s', id)
  {
    assert LocalOk(c, s, owner, id);
    var s' := SaveWork(c, s, owner, id, now);
    PastShape(c, s, id, |s.landed[id]|);
    var turns := s'.landed[id];
    assert turns[..|turns| - 1] == s.landed[id][..|s.landed[id]|];
    assert turns[..|turns|] == turns;
  }

  /** A save by any other runner changes no row. */
  lemma LostSave(c: Config, s: System, owner: Owner, id: Id, now: Time)
    requires IsReady(s, owner, id)
    requires s.rows[id].lockedBy != Some(owner)
    ensures SaveWork(c, s, owner, id, now).rows == s.rows
    ensures id !in SaveWork(c, s, owner, id, now).runners[owner]
  {
  }

  /** All a landed save touches: the one row, its landed turns and the runner's own copy of it. */
  predicate OnlySaved(s: System, s': System, owner: Owner, id: Id) {
    && s'.started == s.started && s'.used == s.used && s'.rows.Keys == s.rows.Keys && s'.landed.Keys == s.landed.Keys
    && (forall i :: i in s.rows && i != id ==> s'.rows[i] == s.rows[i])
    && (forall i :: i in s.landed && i != id ==> s'.landed[i] == s.landed[i])
    && s'.runners.Keys == s.runners.Keys
    && (forall o, i :: o in s'.runners && i in s'.runners[o] && (o != owner || i != id) ==>
          i in s.runners[o] && s'.runners[o][i] == s.runners[o][i])
    && (id in s.rows && id in s'.rows && s'.rows[id].lockedBy.Some? ==> s'.rows[id].lockedBy == Some(owner))
    && (owner in s'.runners && id in s'.runners[owner] && id in s'.rows ==> s'.runners[owner][id] == Holding(s'.rows[id].rec))
  }

  lemma SaveTouchesOne(c: Config, s: System, owner: Owner, id: Id, now: Time)
    requires IsReady(s, owner, id) && s.rows[id].lockedBy == Some(owner) && s.rows.Keys == s.landed.Keys
    ensures OnlySaved(s, SaveWork(c, s, owner, id, now), owner, id)
  {
  }

  lemma SaveKeeps(c: Config, s: System, a: Action)
    requires ValidConfig(c) && Inv(c, s) && a.Save?
    ensures Inv(c, Act(c, s, a))
  {
    if IsReady(s, a.owner, a.id) {
      var s' := Act(c, s, a);
      assert LocalOk(c, s, a.owner, a.id);
      if s.rows[a.id].lockedBy != Some(a.owner) {
        OnlyLocalsChange(c, s, s', a.owner, a.id);
      } else {
        LandedSave(c, s, a.owner, a.id, a.now);
        SaveTouchesOne(c, s, a.owner, a.id, a.now);
        SaveKeepsRest(c, s, s', a.owner, a.id);
      }
    }
  }

  lemma SaveKeepsRest(c: Config, s: System, s': System, owner: Owner, id: Id)
    requires Inv(c, s) && OnlySaved(s, s', owner, id) && id in s.rows
    requires RowOk(c, s', id) && s.landed[id] <= s'.landed[id]
    ensures Inv(c, s')
  {
    forall i | i in s'.rows
      ensures RowOk(c, s', i)
    {
      assert RowOk(c, s, i);
    }
    forall o, i | o in s'.runners && i in s'.runners[o]
      ensures LocalOk(c, s', o, i)
    {
      if o == owner && i == id {
        assert s'.runners[o][i].rec == Past(c, s', i, |s'.landed[i]|);
      } else {
        assert LocalOk(c, s, o, i);
        OtherLocalStays(c, s, s', o, i);
      }
    }
  }

  /** A copy of a row that only gained landed saves since is still a copy of a past version. */
  lemma OtherLocalStays(c: Config, s: System, s': System, o: Owner, i: Id)
    requires LocalOk(c, s, o, i) && RowOk(c, s', i) && s'.started == s.started && s.landed[i] <= s'.landed[i]
    requires o in s'.used && o in s'.runners && i in s'.runners[o] && s'.runners[o][i] == s.runners[o][i]
    requires s'.rows[i].lockedBy == Some(o) ==> s'.rows[i] == s.rows[i]
    ensures LocalOk(c, s', o, i)
  {
    var k: nat :| k <= |s.landed[i]| && s.runners[o][i].rec == Past(c, s, i, k);
    assert s'.landed[i][..k] == s.landed[i][..k];
    assert s'.runners[o][i].rec == Past(c, s', i, k);
  }

  lemma CrashKeeps(c: Config, s: System, a: Action)
    requires Inv(c, s) && a.Crash?
    ensures Inv(c, Act(c, s, a))
  {
    var s' := Act(c, s, a);
    forall o, i | o in s'.runners && i in s'.runners[o]
      ensures LocalOk(c, s', o, i)
    {
      assert LocalOk(c, s, o, i);
      var k: nat :| k <= |s.landed[i]| && s.runners[o][i].rec == Past(c, s, i, k);
      assert s'.runners[o][i].rec == Past(c, s', i, k);
    }
  }

  lemma ActKeeps(c: Config, s: System, a: Action)
    requires ValidConfig(c) && Inv(c, s)
    ensures Inv(c, Act(c, s, a))
  {
    match a
    case Begin(_, _, _, _) => BeginKeeps(c, s, a);
    case Take(_, _, _) => TakeKeeps(c, s, a);
    case Work(_, _, _) => WorkKeeps(c, s, a);
    case Save(_, _, _) => SaveKeeps(c, s, a);
    case Crash(_) => CrashKeeps(c, s, a);
  }

  lemma {:induction false} ExecKeeps(c: Config, actions: seq<Action>)
    requires ValidConfig(c)
    ensures Inv(c, Exec(c, actions))
  {
    if actions != [] {
      ExecKeeps(c, actions[..|actions| - 1]);
      ActKeeps(c, Exec(c, actions[..|actions| - 1]), actions[|actions| - 1]);
    }
  }

  // ---------------------------------------------------------------- refinement

  /**
   * In every interleaving, a row is exactly where the sequential machine gets to on the turns
   * whose saves landed, and has the shape that machine's records have.
   */
  lemma RowsRefineSequentialRuns(c: Config, actions: seq<Action>, id: Id)
    requires ValidConfig(c)
    requires id in Exec(c, actions).rows
    ensures var s := Exec(c, actions);
            && id in s.started && id in s.landed
            && s.started[id] == Start(s.started[id].name, s.started[id].state, s.started[id].nextAttemptAt)
            && s.started[id].name in c.registry
            && s.rows[id].rec == Run(c.registry[s.started[id].name], c.policy, s.started[id], s.landed[id])
            && Shape(c.registry[s.started[id].name], c.policy, s.rows[id].rec)
  {
    ExecKeeps(c, actions);
    var s := Exec(c, actions);
    assert RowOk(c, s, id);
    assert s.landed[id][..|s.landed[id]|] == s.landed[id];
    PastShape(c, s, id, |s.landed[id]|);
  }

  /**
   * One action moves a row by at most one sequential turn, and only when it is a save by the
   * current lease holder; every other action leaves every record as it was.
   */
  lemma EachActionIsAtMostOneTurn(c: Config, actions: seq<Action>, a: Action, id: Id)
    requires ValidConfig(c)
    requires id in Exec(c, actions).rows
    ensures var s := Exec(c, actions);
            var s' := Act(c, s, a);
            && id in s'.rows
            && (s'.rows[id].rec != s.rows[id].rec ==>
                  && a.Save? && a.id == id
                  && s.rows[id].lockedBy == Some(a.owner)
                  && s.rows[id].rec.name in c.registry
                  && exists t :: s'.rows[id].rec == Next(c.registry[s.rows[id].rec.name], c.policy, s.rows[id].rec, t))
  {
    ExecKeeps(c, actions);
    var s := Exec(c, actions);
    match a
    case Begin(_, _, _, _) =>
    case Take(_, _, _) =>
    case Work(_, _, _) => WorkKeeps(c, s, a);
    case Save(owner, i, now) =>
      if IsReady(s, owner, i) {
        if s.rows[i].lockedBy == Some(owner) {
          LandedSave(c, s, owner, i, now);
        } else {
          LostSave(c, s, owner, i, now);
        }
      }
    case Crash(_) =>
  }

  lemma SaveExtends(c: Config, s: System, owner: Owner, id: Id, now: Time)
    requires IsReady(s, owner, id)
    ensures var s' := SaveWork(c, s, owner, id, now);
            s'.started == s.started && s'.rows.Keys == s.rows.Keys
            && forall i :: i in s.landed ==> i in s'.landed && s.landed[i] <= s'.landed[i]
  {
  }

  lemma ActExtends(c: Config, s: System, a: Action, id: Id)
    requires ValidConfig(c) && Inv(c, s) && id in s.rows
    ensures var s' := Act(c, s, a);
            && id in s'.rows && id in s.landed && id in s'.landed && id in s.started && id in s'.started
            && s.landed[id] <= s'.landed[id]
            && s'.started[id] == s.started[id]
  {
    assert RowOk(c, s, id);
    if a.Save? && IsReady(s, a.owner, a.id) {
      SaveExtends(c, s, a.owner, a.id, a.now);
    }
  }

  /** What has landed on a row is never taken back. */
  lemma {:induction false} LandedGrows(c: Config, actions: seq<Action>, more: seq<Action>, id: Id)
    requires ValidConfig(c)
    requires id in Exec(c, actions).rows
    ensures var s, s' := Exec(c, actions), Exec(c, actions + more);
            && id in s'.rows && id in s.landed && id in s'.landed && id in s.started && id in s'.started
            && s.landed[id] <= s'.landed[id]
            && s'.started[id] == s.started[id]
  {
    ExecKeeps(c, actions);
    assert RowOk(c, Exec(c, actions), id);
    if more == [] {
      assert actions + more == actions;
    } else {
      var before := actions + more[..|more| - 1];
      assert (actions + more)[..|actions + more| - 1] == before;
      LandedGrows(c, actions, more[..|more| - 1], id);
      ExecKeeps(c, before);
      ActExtends(c, Exec(c, before), more[|more| - 1], id);
    }
  }

  /**
   * In no interleaving does a saga whose pivot has completed ever back out afterwards, whatever
   * any number of runners go on to do.
   */
  lemma InterleavedPivotSafety(c: Config, actions: seq<Action>, more: seq<Action>, id: Id)
    requires ValidConfig(c)
    requires id in Exec(c, actions).rows
    requires Exec(c, actions).rows[id].rec.name in c.registry
    requires PivotCompleted(c.registry[Exec(c, actions).rows[id].rec.name], Exec(c, actions).rows[id].rec.log)
    ensures id in Exec(c, actions + more).rows
    ensures var r := Exec(c, actions + more).rows[id].rec; r.status != COMPENSATING && r.status != COMPENSATED
  {
    var s, s' := Exec(c, actions), Exec(c, actions + more);
    RowsRefineSequentialRuns(c, actions, id);
    LandedGrows(c, actions, more, id);
    RowsRefineSequentialRuns(c, actions + more, id);
    var name := s.started[id].name;
    RunKeepsName(c.registry[name], c.policy, s.started[id], s.landed[id]);
    var rest := s'.landed[id][|s.landed[id]|..];
    assert s'.landed[id] == s.landed[id] + rest;
    PivotSafety(c.registry[name], c.policy, s.started[id], s.landed[id], rest);
  }

  /** However many runners contend for it, a saga is saved a bounded number of times in its life. */
  lemma SavesAreBounded(c: Config, actions: seq<Action>, id: Id)
    requires ValidConfig(c)
    requires id in Exec(c, actions).rows
    ensures var s := Exec(c, actions);
            id in s.landed && id in s.started && s.started[id].name in c.registry
            && |s.landed[id]| <= 2 * |c.registry[s.started[id].name].steps| * Attempts(c.policy)
  {
    var s := Exec(c, actions);
    RowsRefineSequentialRuns(c, actions, id);
    ExecKeeps(c, actions);
    assert RowOk(c, s, id);
    LogIsBounded(c.registry[s.started[id].name], c.policy, s.started[id], s.landed[id]);
  }
}
