/**
 * What every reachable saga record looks like, and what follows from it: a saga is always
 * resumable under its own definition, never turns back past its pivot, undoes exactly what
 * it did in reverse order, and settles.
 */
module SagaShape {
  import opened Backoff
  import opened Common
  import opened SagaDefinition
  import opened SagaMachine

  /** A step the log says was dealt with going backward. */
  datatype Undone = Undone(step: string, skipped: bool)

  function BackwardDone(log: seq<LogEntry>): seq<Undone> {
    if log == [] then []
    else
      var e := log[|log| - 1];
      BackwardDone(log[..|log| - 1]) +
      if e.direction == Backward && e.outcome != Failed then [Undone(e.step, e.outcome == Skipped)] else []
  }

  function Names(steps: seq<Step>): seq<string> {
    seq(|steps|, i requires 0 <= i < |steps| => steps[i].name)
  }

  /** Steps t, t-1, ..., c+1 in that order, the pivot being the one that is skipped. */
  function Unwound(steps: seq<Step>, t: int, c: int): seq<Undone>
    requires -1 <= c <= t < |steps|
  {
    seq(t - c, j requires 0 <= j < t - c => Undone(steps[t - j].name, steps[t - j].kind != Compensatable))
  }

  /** The step at `t` failed for good and may be backed out of; its failure is the last one logged. */
  predicate TurnedAt(d: Definition, log: seq<LogEntry>, t: int) {
    && 0 <= t < |d.steps|
    && d.steps[t].kind != Retriable
    && var f := LastForwardFailure(log);
       f.Some? && f.value.step == d.steps[t].name && f.value.error.Some?
  }

  predicate GoingForward(d: Definition, r: Record) {
    r.cursor == |ForwardDone(r.log)| < |d.steps| && BackwardDone(r.log) == []
  }

  /** Going backward at `r.cursor`, having turned around at the step after the completed ones. */
  predicate GoingBackward(d: Definition, r: Record) {
    var t := |ForwardDone(r.log)|;
    && TurnedAt(d, r.log, t)
    && -1 <= r.cursor <= t
    && BackwardDone(r.log) == Unwound(d.steps, t, r.cursor)
  }

  /** The shape of a record, status by status. */
  predicate Shape(d: Definition, policy: Policy, r: Record) {
    var t := |ForwardDone(r.log)|;
    && t <= |d.steps|
    && ForwardDone(r.log) == Names(d.steps[..t])
    && match r.status
       case RUNNING => GoingForward(d, r) && r.attempts < Attempts(policy)
       case COMPLETED => r.cursor == t == |d.steps| && BackwardDone(r.log) == []
       case COMPENSATING => GoingBackward(d, r) && 0 <= r.cursor && r.attempts < Attempts(policy)
       case COMPENSATED => GoingBackward(d, r) && r.cursor == -1
       case STUCK =>
         || (GoingForward(d, r) && d.steps[r.cursor].kind == Retriable)
         || (GoingBackward(d, r) && 0 <= r.cursor && d.steps[r.cursor].kind == Compensatable)
  }

  lemma LogAppend(log: seq<LogEntry>, e: LogEntry)
    ensures ForwardDone(log + [e]) == ForwardDone(log) + if e.direction == Forward && e.outcome == Completed then [e.step] else []
    ensures BackwardDone(log + [e]) == BackwardDone(log) +
                                       if e.direction == Backward && e.outcome != Failed then [Undone(e.step, e.outcome == Skipped)] else []
    ensures LastForwardFailure(log + [e]) ==
            if e.direction == Forward && e.outcome == Failed then Some(e) else LastForwardFailure(log)
  {
    assert (log + [e])[..|log|] == log;
  }

  /** `assertResumable` accepts every record of this shape, and its cursor names a step. */
  lemma ShapeIsResumable(d: Definition, policy: Policy, r: Record)
    requires Shape(d, policy, r) && !IsTerminal(r.status)
    ensures Resumable(d, r.log) && 0 <= r.cursor < |d.steps|
  {
  }

  lemma NamesOneMore(steps: seq<Step>, n: int)
    requires 0 <= n < |steps|
    ensures Names(steps[..n + 1]) == Names(steps[..n]) + [steps[n].name]
  {
  }

  lemma NothingUnwound(steps: seq<Step>, t: int)
    requires 0 <= t < |steps|
    ensures Unwound(steps, t, t) == []
  {
  }

  lemma UnwoundOneMore(steps: seq<Step>, t: int, c: int)
    requires 0 <= c <= t < |steps|
    ensures Unwound(steps, t, c - 1) == Unwound(steps, t, c) + [Undone(steps[c].name, steps[c].kind != Compensatable)]
  {
  }

  lemma ExecuteKeepsShape(d: Definition, policy: Policy, r: Record, t: Turn)
    requires Shape(d, policy, r) && r.status == RUNNING
    ensures Shape(d, policy, Apply(r, ExecuteStep(d, policy, r, t)))
  {
    var p := ExecuteStep(d, policy, r, t);
    LogAppend(r.log, p.entry);
    NamesOneMore(d.steps, r.cursor);
    NothingUnwound(d.steps, r.cursor);
  }

  lemma CompensateKeepsShape(d: Definition, policy: Policy, r: Record, t: Turn)
    requires Shape(d, policy, r) && r.status == COMPENSATING
    ensures Shape(d, policy, Apply(r, CompensateStep(d, policy, r, t)))
  {
    var p := CompensateStep(d, policy, r, t);
    LogAppend(r.log, p.entry);
    UnwoundOneMore(d.steps, |ForwardDone(r.log)|, r.cursor);
  }

  lemma NextKeepsShape(d: Definition, policy: Policy, r: Record, t: Turn)
    requires Shape(d, policy, r)
    ensures Shape(d, policy, Next(d, policy, r, t))
    ensures !IsTerminal(r.status) ==> StepOnce(d, policy, r, t).Ok?
  {
    if !IsTerminal(r.status) {
      ShapeIsResumable(d, policy, r);
      if r.status == RUNNING {
        ExecuteKeepsShape(d, policy, r, t);
      } else {
        CompensateKeepsShape(d, policy, r, t);
      }
    }
  }

  /** One entry more, which names the step, the direction, how it ended, when, at which attempt, and why. */
  predicate Logged(d: Definition, r: Record, r': Record, direction: Direction, outcome: Outcome, now: Time, error: Option<string>) {
    0 <= r.cursor < |d.steps| && r'.log == r.log + [LogEntry(d.steps[r.cursor].name, direction, outcome, now, r.attempts + 1, error)]
  }

  /** A retry: everything as it was but for one attempt more, due after the policy's next delay. */
  predicate WaitsForRetry(policy: Policy, r: Record, r': Record, t: Turn) {
    && r'.name == r.name && r'.status == r.status && r'.cursor == r.cursor && r'.state == r.state
    && r'.attempts == r.attempts + 1 < Attempts(policy)
    && NextAttemptDelay(r'.attempts, policy, t.random) == Some(r'.nextAttemptAt - t.now)
  }

  /** Moved to another step or status, due at once. */
  predicate MovesTo(r: Record, r': Record, status: Status, cursor: int, attempts: nat, state: State, now: Time) {
    r'.name == r.name && r'.status == status && r'.cursor == cursor && r'.attempts == attempts && r'.state == state && r'.nextAttemptAt == now
  }

  predicate MayRetry(policy: Policy, r: Record, unretryable: bool) {
    !unretryable && r.attempts + 1 < policy.maxAttempts
  }

  /**
   * What one turn forward means. A step that returns moves on, its patch folded in and its attempts
   * forgotten; one that throws waits while it may be retried, and then is backed out of with its
   * attempts forgotten, unless it is past the pivot, where the saga is stuck.
   */
  lemma ForwardTurn(d: Definition, policy: Policy, r: Record, t: Turn)
    requires Shape(d, policy, r) && r.status == RUNNING
    ensures var r' := Next(d, policy, r, t);
            match t.call
            case Returned(patch) =>
              && Logged(d, r, r', Forward, Completed, t.now, None) && r'.lastError == r.lastError
              && MovesTo(r, r', if r.cursor + 1 == |d.steps| then COMPLETED else RUNNING, r.cursor + 1, 0, Merged(r.state, patch), t.now)
            case Threw(message, final) =>
              && Logged(d, r, r', Forward, Failed, t.now, Some(Truncate(message))) && r'.lastError == Some(Truncate(message))
              && if MayRetry(policy, r, final) then WaitsForRetry(policy, r, r', t)
                 else if d.steps[r.cursor].kind == Retriable then MovesTo(r, r', STUCK, r.cursor, r.attempts + 1, r.state, t.now)
                 else MovesTo(r, r', COMPENSATING, r.cursor, 0, r.state, t.now)
  {
    ShapeIsResumable(d, policy, r);
  }

  /**
   * What one turn backward means. A compensation that returns, or a step there is nothing to
   * compensate, moves back; one that throws waits while it may be retried, and then is stuck.
   */
  lemma BackwardTurn(d: Definition, policy: Policy, r: Record, t: Turn)
    requires Shape(d, policy, r) && r.status == COMPENSATING
    ensures var r' := Next(d, policy, r, t);
            var kept := d.steps[r.cursor].kind != Compensatable;
            if kept || t.call.Returned? then
              && Logged(d, r, r', Backward, if kept then Skipped else Completed, t.now, None) && r'.lastError == r.lastError
              && MovesTo(r, r', if r.cursor == 0 then COMPENSATED else COMPENSATING, r.cursor - 1, 0, r.state, t.now)
            else
              && Logged(d, r, r', Backward, Failed, t.now, Some(Truncate(t.call.message)))
              && if MayRetry(policy, r, t.call.unretryable) then WaitsForRetry(policy, r, r', t) && r'.lastError == r.lastError
                 else MovesTo(r, r', STUCK, r.cursor, r.attempts + 1, r.state, t.now) && r'.lastError == Some(Truncate(t.call.message))
  {
    ShapeIsResumable(d, policy, r);
  }

  /** Every record of every run has the shape of its status. */
  lemma {:induction false} ReachableShape(d: Definition, policy: Policy, start: Record, turns: seq<Turn>)
    requires WellFormed(d)
    requires start == Start(d.name, start.state, start.nextAttemptAt)
    ensures Shape(d, policy, Run(d, policy, start, turns))
  {
    if turns == [] {
      assert Names(d.steps[..0]) == [];
    } else {
      ReachableShape(d, policy, start, turns[..|turns| - 1]);
      NextKeepsShape(d, policy, Run(d, policy, start, turns[..|turns| - 1]), turns[|turns| - 1]);
    }
  }

  /** Some sequential run from a fresh record gets to `r`. */
  ghost predicate Reachable(d: Definition, policy: Policy, r: Record) {
    exists state, now, turns :: r == Run(d, policy, Start(d.name, state, now), turns)
  }

  lemma ReachableNext(d: Definition, policy: Policy, r: Record, t: Turn)
    requires WellFormed(d) && Reachable(d, policy, r)
    ensures Shape(d, policy, r)
    ensures Reachable(d, policy, Next(d, policy, r, t))
  {
    var state, now, turns :| r == Run(d, policy, Start(d.name, state, now), turns);
    ReachableShape(d, policy, Start(d.name, state, now), turns);
    assert (turns + [t])[..|turns|] == turns;
    assert Next(d, policy, r, t) == Run(d, policy, Start(d.name, state, now), turns + [t]);
  }

  /** An unchanged definition is never refused: no run ever reaches the abandoning branch. */
  lemma NeverRefused(d: Definition, policy: Policy, start: Record, turns: seq<Turn>, t: Turn)
    requires WellFormed(d)
    requires start == Start(d.name, start.state, start.nextAttemptAt)
    requires !IsTerminal(Run(d, policy, start, turns).status)
    ensures StepOnce(d, policy, Run(d, policy, start, turns), t).Ok?
  {
    ReachableShape(d, policy, start, turns);
    NextKeepsShape(d, policy, Run(d, policy, start, turns), t);
  }

  /**
   * A record is refused exactly when the steps its log completed are not the first steps of the
   * definition, in its order, or else its cursor names no step; and it is then given up on as it stands.
   */
  lemma RefusedExactly(d: Definition, policy: Policy, r: Record, t: Turn)
    ensures var moved := !(ForwardDone(r.log) <= Names(d.steps));
            && (StepOnce(d, policy, r, t) == Err(DefinitionMoved) <==> moved)
            && (StepOnce(d, policy, r, t) == Err(CursorOutside) <==> !moved && !(0 <= r.cursor < |d.steps|))
            && (!IsTerminal(r.status) && StepOnce(d, policy, r, t).Err? ==>
                  Next(d, policy, r, t) == r.(status := STUCK, lastError := Some(Truncate(CANNOT_ADVANCE))))
  {
    var done, names := ForwardDone(r.log), Names(d.steps);
    if Resumable(d, r.log) {
      if done != [] {
        var last := done[|done| - 1];
        assert |done| - 1 < |d.steps|;
      }
      assert done == names[..|done|];
    }
    if done <= names {
      assert forall i :: 0 <= i < |done| ==> done[i] == names[i] && d.steps[i].name == names[i];
    }
  }

  // ---------------------------------------------------------------- the pivot

  predicate PivotCompleted(d: Definition, log: seq<LogEntry>) {
    exists p :: 0 <= p < |d.steps| && d.steps[p].kind == Pivot && d.steps[p].name in ForwardDone(log)
  }

  lemma NamesContain(steps: seq<Step>, t: int, p: int)
    requires DistinctNames(steps) && 0 <= p < |steps| && 0 <= t <= |steps|
    ensures steps[p].name in Names(steps[..t]) <==> p < t
  {
    if p < t {
      assert Names(steps[..t])[p] == steps[p].name;
    }
  }

  /** A record that has completed its pivot is going, or has gone, forward. */
  lemma CommittedNeverBacksOut(d: Definition, policy: Policy, r: Record)
    requires WellFormed(d) && Shape(d, policy, r)
    requires PivotCompleted(d, r.log)
    ensures r.status != COMPENSATING && r.status != COMPENSATED
    ensures r.status == STUCK ==> d.steps[r.cursor].kind == Retriable
    ensures BackwardDone(r.log) == []
  {
    var p :| 0 <= p < |d.steps| && d.steps[p].kind == Pivot && d.steps[p].name in ForwardDone(r.log);
    var split :| SplitAt(d.steps, split);
    assert split == p;
    NamesContain(d.steps, |ForwardDone(r.log)|, p);
  }

  lemma ForwardDoneGrows(d: Definition, policy: Policy, r: Record, turns: seq<Turn>)
    ensures ForwardDone(r.log) <= ForwardDone(Run(d, policy, r, turns).log)
  {
    if turns != [] {
      var before := Run(d, policy, r, turns[..|turns| - 1]);
      ForwardDoneGrows(d, policy, r, turns[..|turns| - 1]);
      var t := turns[|turns| - 1];
      if !IsTerminal(before.status) && StepOnce(d, policy, before, t).Ok? {
        LogAppend(before.log, StepOnce(d, policy, before, t).value.entry);
      }
    }
  }

  lemma RunConcat(d: Definition, policy: Policy, r: Record, a: seq<Turn>, b: seq<Turn>)
    ensures Run(d, policy, r, a + b) == Run(d, policy, Run(d, policy, r, a), b)
  {
    if b == [] {
      assert a + b == a;
    } else {
      assert (a + b)[..|a + b| - 1] == a + b[..|b| - 1];
      RunConcat(d, policy, r, a, b[..|b| - 1]);
    }
  }

  /** Once the pivot's completion is logged, no later record is backing out or backed out. */
  lemma PivotSafety(d: Definition, policy: Policy, start: Record, turns: seq<Turn>, more: seq<Turn>)
    requires WellFormed(d)
    requires start == Start(d.name, start.state, start.nextAttemptAt)
    requires PivotCompleted(d, Run(d, policy, start, turns).log)
    ensures var later := Run(d, policy, start, turns + more);
            later.status != COMPENSATING && later.status != COMPENSATED && BackwardDone(later.log) == []
  {
    var now := Run(d, policy, start, turns);
    var p :| 0 <= p < |d.steps| && d.steps[p].kind == Pivot && d.steps[p].name in ForwardDone(now.log);
    RunConcat(d, policy, start, turns, more);
    ForwardDoneGrows(d, policy, now, more);
    ReachableShape(d, policy, start, turns + more);
    CommittedNeverBacksOut(d, policy, Run(d, policy, start, turns + more));
  }

  /** Before a step that may be backed out of, every step is compensatable. */
  lemma CompensatableBefore(d: Definition, t: int)
    requires WellFormed(d) && 0 <= t < |d.steps| && d.steps[t].kind != Retriable
    ensures forall i :: 0 <= i < t ==> d.steps[i].kind == Compensatable
  {
    var split :| SplitAt(d.steps, split);
  }

  /** Steps t down to 0, in that order, the pivot being the only one skipped, and only in first place. */
  predicate UndidFrom(steps: seq<Step>, done: seq<Undone>, t: int)
    requires t < |steps|
  {
    && |done| == t + 1
    && (forall j :: 0 <= j <= t ==> done[j].step == steps[t - j].name)
    && (forall j :: 0 <= j <= t ==> (done[j].skipped <==> steps[t - j].kind == Pivot))
    && (forall j :: 0 < j <= t ==> !done[j].skipped)
  }

  lemma UnwoundUndid(steps: seq<Step>, t: int)
    requires 0 <= t < |steps| && steps[t].kind != Retriable
    requires forall i :: 0 <= i < t ==> steps[i].kind == Compensatable
    ensures UndidFrom(steps, Unwound(steps, t, -1), t)
  {
    var done := Unwound(steps, t, -1);
    forall j | 0 <= j <= t
      ensures done[j].step == steps[t - j].name && (done[j].skipped <==> steps[t - j].kind == Pivot)
      ensures j > 0 ==> !done[j].skipped
    {
      assert done[j] == Undone(steps[t - j].name, steps[t - j].kind != Compensatable);
    }
  }

  /**
   * A compensated saga undid every step from the one that failed down to the first, in exact
   * reverse order; it turned around at or before the pivot, and the pivot is the only step that
   * was skipped rather than compensated.
   */
  lemma CompensatedUndidEverything(d: Definition, policy: Policy, start: Record, turns: seq<Turn>)
    requires WellFormed(d)
    requires start == Start(d.name, start.state, start.nextAttemptAt)
    requires Run(d, policy, start, turns).status == COMPENSATED
    ensures var log := Run(d, policy, start, turns).log;
            var t := |ForwardDone(log)|;
            t < |d.steps| && ForwardDone(log) == Names(d.steps[..t]) && UndidFrom(d.steps, BackwardDone(log), t)
  {
    ReachableShape(d, policy, start, turns);
    var t := |ForwardDone(Run(d, policy, start, turns).log)|;
    CompensatableBefore(d, t);
    UnwoundUndid(d.steps, t);
  }

  /** A compensation is always told about the failure of the step the saga turned around at. */
  lemma CompensationKnowsItsCause(d: Definition, policy: Policy, start: Record, turns: seq<Turn>)
    requires WellFormed(d)
    requires start == Start(d.name, start.state, start.nextAttemptAt)
    requires Run(d, policy, start, turns).status == COMPENSATING
    ensures var r := Run(d, policy, start, turns);
            var t := |ForwardDone(r.log)|;
            r.cursor <= t < |d.steps| && TurnedAt(d, r.log, t)
  {
    ReachableShape(d, policy, start, turns);
  }

  // ---------------------------------------------------------------- settling

  /** `m`, `n` times over. */
  function Rep(n: nat, m: nat): nat {
    if n == 0 then 0 else Rep(n - 1, m) + m
  }

  lemma {:induction false} RepMonotone(a: nat, b: nat, m: nat)
    requires a <= b
    ensures Rep(a, m) <= Rep(b, m)
  {
    if a < b {
      RepMonotone(a, b - 1, m);
    }
  }

  lemma {:induction false} RepTimes(n: nat, m: nat)
    ensures Rep(n, m) == n * m
  {
    if n > 0 {
      RepTimes(n - 1, m);
      assert n * m == (n - 1) * m + m;
    }
  }

  /** Steps that can have used up all their attempts by now. */
  function Spent(d: Definition, r: Record): nat {
    var t := |ForwardDone(r.log)|;
    match r.status
    case RUNNING => t
    case COMPENSATING => if r.cursor <= t then 2 * t + 1 - r.cursor else 0
    case _ => 2 * |d.steps|
  }

  /** How many log entries a record of this shape can have, at the very most. */
  function LogBound(d: Definition, policy: Policy, r: Record): int {
    Rep(Spent(d, r), Attempts(policy)) + if IsTerminal(r.status) then 0 else r.attempts
  }

  /** A turn uses one more attempt, or moves past everything that could be used before it. */
  predicate SpendsOne(d: Definition, r: Record, r': Record) {
    && |r'.log| == |r.log| + 1
    && (Spent(d, r') > Spent(d, r)
        || (Spent(d, r') == Spent(d, r) && !IsTerminal(r'.status) && r'.attempts == r.attempts + 1))
  }

  lemma ForwardSpends(d: Definition, policy: Policy, r: Record, t: Turn)
    requires Shape(d, policy, r) && r.status == RUNNING
    ensures SpendsOne(d, r, Next(d, policy, r, t))
  {
    ShapeIsResumable(d, policy, r);
    LogAppend(r.log, ExecuteStep(d, policy, r, t).entry);
  }

  lemma BackwardSpends(d: Definition, policy: Policy, r: Record, t: Turn)
    requires Shape(d, policy, r) && r.status == COMPENSATING
    ensures SpendsOne(d, r, Next(d, policy, r, t))
  {
    ShapeIsResumable(d, policy, r);
    LogAppend(r.log, CompensateStep(d, policy, r, t).entry);
  }

  lemma BoundGrows(d: Definition, policy: Policy, r: Record, r': Record)
    requires !IsTerminal(r.status) && r.attempts < Attempts(policy) && SpendsOne(d, r, r')
    requires |r.log| <= LogBound(d, policy, r)
    ensures |r'.log| <= LogBound(d, policy, r')
  {
    var m := Attempts(policy);
    if Spent(d, r') > Spent(d, r) {
      RepMonotone(Spent(d, r) + 1, Spent(d, r'), m);
    }
  }

  lemma ShapeIsBounded(d: Definition, policy: Policy, r: Record)
    requires Shape(d, policy, r)
    ensures LogBound(d, policy, r) <= 2 * |d.steps| * Attempts(policy)
  {
    var m, spent := Attempts(policy), Spent(d, r);
    RepTimes(2 * |d.steps|, m);
    if !IsTerminal(r.status) {
      assert Rep(spent + 1, m) == Rep(spent, m) + m;
      RepMonotone(spent + 1, 2 * |d.steps|, m);
    }
  }

  lemma NextKeepsBound(d: Definition, policy: Policy, r: Record, t: Turn)
    requires Shape(d, policy, r) && |r.log| <= LogBound(d, policy, r)
    ensures |Next(d, policy, r, t).log| <= LogBound(d, policy, Next(d, policy, r, t))
  {
    if !IsTerminal(r.status) {
      if r.status == RUNNING {
        ForwardSpends(d, policy, r, t);
      } else {
        BackwardSpends(d, policy, r, t);
      }
      BoundGrows(d, policy, r, Next(d, policy, r, t));
    }
  }

  /** The log never holds more than two entries per step and attempt. */
  lemma {:induction false} LogIsBounded(d: Definition, policy: Policy, start: Record, turns: seq<Turn>)
    requires WellFormed(d)
    requires start == Start(d.name, start.state, start.nextAttemptAt)
    ensures var r := Run(d, policy, start, turns);
            |r.log| <= LogBound(d, policy, r) <= 2 * |d.steps| * Attempts(policy)
  {
    if turns != [] {
      var before := turns[..|turns| - 1];
      LogIsBounded(d, policy, start, before);
      ReachableShape(d, policy, start, before);
      NextKeepsBound(d, policy, Run(d, policy, start, before), turns[|turns| - 1]);
    }
    ReachableShape(d, policy, start, turns);
    ShapeIsBounded(d, policy, Run(d, policy, start, turns));
  }

  /** While a run has not settled, every turn of it is one more log entry. */
  lemma {:induction false} UnsettledRunLogsEveryTurn(d: Definition, policy: Policy, start: Record, turns: seq<Turn>)
    requires WellFormed(d)
    requires start == Start(d.name, start.state, start.nextAttemptAt)
    requires !IsTerminal(Run(d, policy, start, turns).status)
    ensures |Run(d, policy, start, turns).log| == |turns|
  {
    if turns != [] {
      var before := turns[..|turns| - 1];
      UnsettledRunLogsEveryTurn(d, policy, start, before);
      NeverRefused(d, policy, start, before, turns[|turns| - 1]);
    }
  }

  /** A saga that keeps being advanced reaches a terminal status. */
  lemma EverySagaSettles(d: Definition, policy: Policy, start: Record, turns: seq<Turn>)
    requires WellFormed(d)
    requires start == Start(d.name, start.state, start.nextAttemptAt)
    requires |turns| > 2 * |d.steps| * Attempts(policy)
    ensures IsTerminal(Run(d, policy, start, turns).status)
  {
    if !IsTerminal(Run(d, policy, start, turns).status) {
      UnsettledRunLogsEveryTurn(d, policy, start, turns);
      LogIsBounded(d, policy, start, turns);
    }
  }
}
