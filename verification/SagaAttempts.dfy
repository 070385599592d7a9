/** Attempts: counted afresh for every step and direction, and spent in full before a saga gives up. */
module SagaAttempts {
  import opened Backoff
  import opened SagaDefinition
  import opened SagaMachine
  import opened SagaShape

  /** The direction an unsettled record is going in. */
  function Heading(r: Record): Direction {
    if r.status == COMPENSATING then Backward else Forward
  }

  /** How many failures of this step, in this direction, the log ends in. */
  function FailuresAtEnd(log: seq<LogEntry>, step: string, direction: Direction): nat {
    if log == [] then 0
    else
      var e := log[|log| - 1];
      if e.step == step && e.direction == direction && e.outcome == Failed
      then FailuresAtEnd(log[..|log| - 1], step, direction) + 1 else 0
  }

  lemma FailuresAppend(log: seq<LogEntry>, e: LogEntry, step: string, direction: Direction)
    ensures FailuresAtEnd(log + [e], step, direction)
         == if e.step == step && e.direction == direction && e.outcome == Failed then FailuresAtEnd(log, step, direction) + 1 else 0
  {
    assert (log + [e])[..|log|] == log;
  }

  /** The attempts of an unsettled record are the failures its log ends in, of the step it is at and the way it is going. */
  predicate Counted(d: Definition, r: Record) {
    !IsTerminal(r.status) ==>
      0 <= r.cursor < |d.steps| && r.attempts == FailuresAtEnd(r.log, d.steps[r.cursor].name, Heading(r))
  }

  lemma ForwardCounts(d: Definition, policy: Policy, r: Record, t: Turn)
    requires Shape(d, policy, r) && r.status == RUNNING && Counted(d, r)
    ensures Counted(d, Next(d, policy, r, t))
  {
    var r' := Next(d, policy, r, t);
    ForwardTurn(d, policy, r, t);
    NextKeepsShape(d, policy, r, t);
    if !IsTerminal(r'.status) {
      FailuresAppend(r.log, r'.log[|r.log|], d.steps[r'.cursor].name, Heading(r'));
    }
  }

  lemma BackwardCounts(d: Definition, policy: Policy, r: Record, t: Turn)
    requires Shape(d, policy, r) && r.status == COMPENSATING && Counted(d, r)
    ensures Counted(d, Next(d, policy, r, t))
  {
    var r' := Next(d, policy, r, t);
    BackwardTurn(d, policy, r, t);
    NextKeepsShape(d, policy, r, t);
    if !IsTerminal(r'.status) {
      FailuresAppend(r.log, r'.log[|r.log|], d.steps[r'.cursor].name, Heading(r'));
    }
  }

  /** Over every run: attempts are counted from nought for each step, and again for its compensation. */
  lemma {:induction false} AttemptsAreTheFailuresAtHand(d: Definition, policy: Policy, start: Record, turns: seq<Turn>)
    requires WellFormed(d)
    requires start == Start(d.name, start.state, start.nextAttemptAt)
    ensures Counted(d, Run(d, policy, start, turns))
  {
    if turns != [] {
      var before := turns[..|turns| - 1];
      var r, t := Run(d, policy, start, before), turns[|turns| - 1];
      AttemptsAreTheFailuresAtHand(d, policy, start, before);
      ReachableShape(d, policy, start, before);
      if r.status == RUNNING {
        ForwardCounts(d, policy, r, t);
      } else if r.status == COMPENSATING {
        BackwardCounts(d, policy, r, t);
      }
    }
  }

  /** A turn that gives up on what it was doing: the saga turns round, or is stuck. */
  predicate GivesUp(r: Record, r': Record) {
    r'.status == STUCK || (r.status == RUNNING && r'.status == COMPENSATING)
  }

  /** The body of the step is called, forward or backward. */
  predicate IsCalled(d: Definition, r: Record) {
    0 <= r.cursor < |d.steps| && (r.status == RUNNING || d.steps[r.cursor].kind == Compensatable)
  }

  /**
   * Over every run: a step, and each compensation, is given up on exactly when it throws an error that
   * must not be retried, or when the log now ends in as many failures of it as the policy allows attempts.
   */
  lemma GivesUpExactlyWhenSpent(d: Definition, policy: Policy, start: Record, turns: seq<Turn>, t: Turn)
    requires WellFormed(d)
    requires start == Start(d.name, start.state, start.nextAttemptAt)
    requires !IsTerminal(Run(d, policy, start, turns).status)
    ensures var r := Run(d, policy, start, turns);
            var r' := Next(d, policy, r, t);
            && 0 <= r.cursor < |d.steps|
            && (GivesUp(r, r') <==>
                  IsCalled(d, r) && t.call.Threw?
                  && (t.call.unretryable || FailuresAtEnd(r'.log, d.steps[r.cursor].name, Heading(r)) >= Attempts(policy)))
  {
    var r := Run(d, policy, start, turns);
    var r' := Next(d, policy, r, t);
    ReachableShape(d, policy, start, turns);
    AttemptsAreTheFailuresAtHand(d, policy, start, turns);
    if r.status == RUNNING {
      ForwardTurn(d, policy, r, t);
    } else {
      BackwardTurn(d, policy, r, t);
    }
    FailuresAppend(r.log, r'.log[|r.log|], d.steps[r.cursor].name, Heading(r));
  }
}
