/**
 * The sequential saga machine: what one runner decides from a persisted record and the
 * outcome of one step call, and what saving that decision does to the record.
 */
module SagaMachine {
  import opened Backoff
  import opened Common
  import opened Json
  import opened SagaDefinition

  type Time = int

  type State = map<string, Value>

  /** What a step returned; a `None` member is a key set to `undefined`. */
  type Patch = Option<map<string, Option<Value>>>

  datatype Status = RUNNING | COMPENSATING | COMPLETED | COMPENSATED | STUCK

  predicate IsTerminal(s: Status) {
    s == COMPLETED || s == COMPENSATED || s == STUCK
  }

  datatype Direction = Forward | Backward

  datatype Outcome = Completed | Failed | Skipped

  datatype LogEntry = LogEntry(step: string, direction: Direction, outcome: Outcome, at: Time, attempt: nat, error: Option<string>)

  datatype Record = Record(
    name: string,
    status: Status,
    cursor: int,
    attempts: nat,
    nextAttemptAt: Time,
    state: State,
    log: seq<LogEntry>,
    lastError: Option<string>)

  datatype Progress = Progress(
    status: Status,
    cursor: int,
    attempts: nat,
    nextAttemptAt: Time,
    state: State,
    entry: LogEntry,
    lastError: Option<string>,
    release: bool)

  /** How one call of `execute` or `compensate` ended, a timeout being an ordinary throw. */
  datatype Call = Returned(patch: Patch) | Threw(message: string, unretryable: bool)

  /** Everything outside the machine that one iteration depends on. */
  datatype Turn = Turn(call: Call, now: Time, random: Jitter)

  datatype Failure = Failure(step: string, message: string)

  // ---------------------------------------------------------------- retrying

  function RetryAt(policy: Policy, now: Time, attempt: nat, unretryable: bool, random: Jitter): (t: Option<Time>)
    requires attempt >= 1
    ensures t.None? <==> unretryable || attempt >= policy.maxAttempts
    ensures t.Some? ==> now <= t.value <= now + policy.maxMs && NextAttemptDelay(attempt, policy, random) == Some(t.value - now)
  {
    if unretryable then None
    else
      match NextAttemptDelay(attempt, policy, random)
      case None => None
      case Some(d) => Some(now + d)
  }

  // ---------------------------------------------------------------- one step

  /** The state after folding in a patch: defined members win, `undefined` ones are dropped. */
  function Merged(state: State, patch: Patch): State {
    match patch
    case None => state
    case Some(p) => state + (map k | k in p && p[k].Some? :: p[k].value)
  }

  function Entry(step: string, direction: Direction, outcome: Outcome, attempt: nat, at: Time, error: Option<string>): LogEntry {
    LogEntry(step, direction, outcome, at, attempt,
             match error case None => None case Some(m) => Some(Truncate(m)))
  }

  function ExecuteStep(d: Definition, policy: Policy, r: Record, t: Turn): Progress
    requires 0 <= r.cursor < |d.steps|
  {
    var step := d.steps[r.cursor];
    var attempt := r.attempts + 1;
    match t.call
    case Returned(patch) =>
      var cursor := r.cursor + 1;
      var done := cursor >= |d.steps|;
      Progress(if done then COMPLETED else RUNNING, cursor, 0, t.now, Merged(r.state, patch),
               Entry(step.name, Forward, Completed, attempt, t.now, None), r.lastError, done)
    case Threw(message, unretryable) =>
      var entry := Entry(step.name, Forward, Failed, attempt, t.now, Some(message));
      var lastError := Some(Truncate(message));
      match RetryAt(policy, t.now, attempt, unretryable, t.random)
      case Some(at) => Progress(RUNNING, r.cursor, attempt, at, r.state, entry, lastError, true)
      case None =>
        if step.kind == Retriable
        then Progress(STUCK, r.cursor, attempt, t.now, r.state, entry, lastError, true)
        else Progress(COMPENSATING, r.cursor, 0, t.now, r.state, entry, lastError, false)
  }

  function CompensateStep(d: Definition, policy: Policy, r: Record, t: Turn): Progress
    requires 0 <= r.cursor < |d.steps|
  {
    var step := d.steps[r.cursor];
    var attempt := r.attempts + 1;
    var cursor := r.cursor - 1;
    var done := cursor < 0;
    var status := if done then COMPENSATED else COMPENSATING;
    if step.kind != Compensatable then
      Progress(status, cursor, 0, t.now, r.state,
               Entry(step.name, Backward, Skipped, attempt, t.now, None), r.lastError, done)
    else
      match t.call
      case Returned(_) =>
        Progress(status, cursor, 0, t.now, r.state,
                 Entry(step.name, Backward, Completed, attempt, t.now, None), r.lastError, done)
      case Threw(message, unretryable) =>
        var entry := Entry(step.name, Backward, Failed, attempt, t.now, Some(message));
        match RetryAt(policy, t.now, attempt, unretryable, t.random)
        case Some(at) => Progress(COMPENSATING, r.cursor, attempt, at, r.state, entry, r.lastError, true)
        case None => Progress(STUCK, r.cursor, attempt, t.now, r.state, entry, Some(Truncate(message)), true)
  }

  /** The steps the log says completed going forward, in order. */
  function ForwardDone(log: seq<LogEntry>): seq<string> {
    if log == [] then []
    else
      var e := log[|log| - 1];
      ForwardDone(log[..|log| - 1]) + if e.direction == Forward && e.outcome == Completed then [e.step] else []
  }

  /** The log's completed steps are the definition's first steps, in its order. */
  predicate Resumable(d: Definition, log: seq<LogEntry>) {
    var done := ForwardDone(log);
    forall i :: 0 <= i < |done| ==> i < |d.steps| && d.steps[i].name == done[i]
  }

  datatype Refusal = DefinitionMoved | CursorOutside

  /** The one thing a saga does next, or the reason it cannot be run at all. */
  function StepOnce(d: Definition, policy: Policy, r: Record, t: Turn): Result<Progress, Refusal> {
    if !Resumable(d, r.log) then Err(DefinitionMoved)
    else if !(0 <= r.cursor < |d.steps|) then Err(CursorOutside)
    else if r.status == COMPENSATING then Ok(CompensateStep(d, policy, r, t))
    else Ok(ExecuteStep(d, policy, r, t))
  }

  /** What saving a progress writes: everything it carries, and its entry at the end of the log. */
  function Apply(r: Record, p: Progress): Record {
    Record(r.name, p.status, p.cursor, p.attempts, p.nextAttemptAt, p.state, r.log + [p.entry], p.lastError)
  }

  function Abandoned(r: Record, reason: string): Record {
    r.(status := STUCK, lastError := Some(Truncate(reason)))
  }

  const CANNOT_ADVANCE := "cannot be advanced"

  /** One turn of the sequential machine. A terminal record does not move. */
  function Next(d: Definition, policy: Policy, r: Record, t: Turn): Record {
    if IsTerminal(r.status) then r
    else
      match StepOnce(d, policy, r, t)
      case Ok(p) => Apply(r, p)
      case Err(_) => Abandoned(r, CANNOT_ADVANCE)
  }

  /** A whole run of the sequential machine. */
  function Run(d: Definition, policy: Policy, r: Record, turns: seq<Turn>): Record {
    if turns == [] then r
    else Next(d, policy, Run(d, policy, r, turns[..|turns| - 1]), turns[|turns| - 1])
  }

  /** The record `create` inserts. */
  function Start(name: string, state: State, now: Time): Record {
    Record(name, RUNNING, 0, 0, now, state, [], None)
  }

  // ---------------------------------------------------------------- helpers of the orchestrator

  /**
   * Folds a patch into the state, one member at a time. `undefined` members leave the
   * state as it was, so a reloaded state has the same keys as the one that was saved.
   */
  method MergeState(state: State, patch: Patch) returns (merged: State)
    ensures merged == Merged(state, patch)
    ensures patch.None? ==> merged == state
    ensures patch.Some? ==> forall k :: k in merged <==> k in state || (k in patch.value && patch.value[k].Some?)
    ensures patch.Some? ==> forall k :: k in merged ==>
                                          merged[k] == if k in patch.value && patch.value[k].Some? then patch.value[k].value else state[k]
  {
    merged := state;
    if patch.None? {
      return;
    }
    var p := patch.value;
    var keys := p.Keys;
    while keys != {}
      invariant keys <= p.Keys
      invariant forall k :: FoldedAt(state, p, keys, merged, k)
      decreases |keys|
    {
      var k :| k in keys;
      ghost var left, before := keys, merged;
      keys := keys - {k};
      if p[k].Some? {
        merged := merged[k := p[k].value];
      }
      forall j
        ensures FoldedAt(state, p, keys, merged, j)
      {
        assert FoldedAt(state, p, left, before, j);
      }
    }
    FoldedIsMerged(state, p, merged);
  }

  /** Key `k` of the state, once every member of the patch but those in `left` is folded in. */
  predicate FoldedAt(state: State, p: map<string, Option<Value>>, left: set<string>, merged: State, k: string) {
    var folded := k in p && k !in left && p[k].Some?;
    && (k in merged <==> k in state || folded)
    && (k in merged ==> merged[k] == if folded then p[k].value else state[k])
  }

  lemma FoldedIsMerged(state: State, p: map<string, Option<Value>>, merged: State)
    requires forall k :: FoldedAt(state, p, {}, merged, k)
    ensures merged == Merged(state, Some(p))
    ensures forall k :: k in merged <==> k in state || (k in p && p[k].Some?)
    ensures forall k :: k in merged ==> merged[k] == if k in p && p[k].Some? then p[k].value else state[k]
  {
    var whole := Merged(state, Some(p));
    forall k
      ensures k in merged <==> k in state || (k in p && p[k].Some?)
      ensures k in merged ==> merged[k] == if k in p && p[k].Some? then p[k].value else state[k]
    {
      assert FoldedAt(state, p, {}, merged, k);
    }
    assert merged.Keys == whole.Keys;
  }

  /** The most recent forward failure in the log. */
  function LastForwardFailure(log: seq<LogEntry>): Option<LogEntry> {
    if log == [] then None
    else
      var e := log[|log| - 1];
      if e.direction == Forward && e.outcome == Failed then Some(e) else LastForwardFailure(log[..|log| - 1])
  }

  /** The failure a compensation is told about, found by scanning the log from its end. */
  method FailureFrom(d: Definition, r: Record) returns (f: Failure)
    ensures var fallback := if r.lastError.Some? then r.lastError.value else "unknown failure";
            match LastForwardFailure(r.log)
            case Some(e) => f == Failure(e.step, if e.error.Some? then e.error.value else fallback)
            case None => f == Failure(if 0 <= r.cursor < |d.steps| then d.steps[r.cursor].name else "unknown", fallback)
  {
    var fallback := if r.lastError.Some? then r.lastError.value else "unknown failure";
    var index := |r.log| - 1;
    assert r.log[..index + 1] == r.log;
    while index >= 0
      invariant -1 <= index < |r.log|
      invariant LastForwardFailure(r.log) == LastForwardFailure(r.log[..index + 1])
    {
      var item := r.log[index];
      assert r.log[..index + 1][..index] == r.log[..index];
      if item.direction == Forward && item.outcome == Failed {
        return Failure(item.step, if item.error.Some? then item.error.value else fallback);
      }
      index := index - 1;
    }
    return Failure(if 0 <= r.cursor < |d.steps| then d.steps[r.cursor].name else "unknown", fallback);
  }
}
