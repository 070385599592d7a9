/** The consumer of domain events: a bounded retry ladder, then the dead-letter topic. */
module Consumer {
  import opened Backoff
  import opened Common
  import opened Groups
  import opened DeadLetters
  import opened Broker
  import opened InMemoryBroker

  // ---------------------------------------------------------------- the ladder

  /** What one turn of the ladder meets. */
  datatype Try =
    | AbortSeen
    | Succeeds
    | Fails(error: string, draw: Jitter, abortedInSleep: bool)
    | RaisesAbort

  datatype LadderResult =
    | Succeeded(attempts: nat)
    | Exhausted(attempts: nat, error: string)
    | Aborted

  /** Each of the first `n` turns failed and slept its delay out. */
  predicate AllFail(script: seq<Try>, n: int) {
    n <= |script| && forall i :: 0 <= i < n ==> script[i].Fails? && !script[i].abortedInSleep
  }

  /** The first turn that does not fail succeeds, before the attempts are spent. */
  predicate SucceedsAt(policy: Policy, script: seq<Try>, a: int) {
    1 <= a <= Attempts(policy) && a <= |script| && AllFail(script, a - 1) && script[a - 1].Succeeds?
  }

  /** Every attempt the policy allows fails. */
  predicate Exhausts(policy: Policy, script: seq<Try>) {
    var n := Attempts(policy);
    n <= |script| && AllFail(script, n - 1) && script[n - 1].Fails?
  }

  method RunRetryLadder(policy: Policy, script: seq<Try>) returns (r: LadderResult)
    requires |script| >= Attempts(policy)
    ensures r.Succeeded? ==> SucceedsAt(policy, script, r.attempts)
    ensures r.Exhausted? <==> Exhausts(policy, script)
    ensures r.Exhausted? ==> r.attempts == Attempts(policy) && r.error == script[r.attempts - 1].error
    ensures r.Aborted? ==> !exists a :: SucceedsAt(policy, script, a)
  {
    var attempts := 0;
    while true
      invariant 0 <= attempts < Attempts(policy) && AllFail(script, attempts)
      decreases Attempts(policy) - attempts
    {
      var turn := script[attempts];
      if turn.AbortSeen? {
        return Aborted;
      }
      attempts := attempts + 1;
      if turn.Succeeds? {
        return Succeeded(attempts);
      }
      if turn.RaisesAbort? {
        return Aborted;
      }
      var delay := NextAttemptDelay(attempts, policy, turn.draw);
      if delay.None? {
        return Exhausted(attempts, turn.error);
      }
      if turn.abortedInSleep {
        return Aborted;
      }
    }
  }

  // ---------------------------------------------------------------- the dead-letter queue

  class DeadLetterQueue {
    const broker: InMemoryBroker
    const topic: Option<string>

    constructor (broker: InMemoryBroker, topic: Option<string>)
      ensures this.broker == broker && this.topic == topic
    {
      this.broker, this.topic := broker, topic;
    }

    predicate Enabled() {
      topic.Some?
    }

    /** The partition the key hashes to exists. */
    predicate InRange(partition: nat)
      reads broker
    {
      topic.Some? ==> Exists(WithTopic(broker.logs, topic.value, broker.cfg.defaultPartitions), Key(topic.value, partition))
    }

    /** Copies a message to the dead-letter topic; `false` is a publish that failed, or no topic to publish to. */
    method Send(c: Call, group: string, partition: nat, context: Context) returns (ok: bool)
      requires InRange(partition)
      modifies broker
      ensures ok == (Enabled() && !old(broker.closed))
      ensures ok ==> var copy := DeadLetter(c.record, group, c.key, c.offset, context);
                     broker.State() == old(broker.State()).(logs := Produced(broker.cfg, old(broker.logs), Key(topic.value, partition), copy))
      ensures !ok ==> broker.State() == old(broker.State())
    {
      if topic.None? {
        return false;
      }
      var copy := DeadLetter(c.record, group, c.key, c.offset, context);
      var target := Key(topic.value, partition);
      OneMessage(broker.cfg, broker.logs, target, copy);
      ok := broker.Produce([(target, copy)]);
    }
  }

  lemma OneMessage(cfg: Config, logs: Logs, key: Key, record: Record)
    ensures ProducedAll(cfg, logs, [(key, record)]) == Produced(cfg, logs, key, record)
  {
    assert [(key, record)][..0] == [];
    assert ProducedAll(cfg, logs, []) == logs;
  }

  // ---------------------------------------------------------------- the consumer

  datatype Decoding = Decoded | ContractViolation(error: string) | Unrecognised(error: string) | Broken

  /** A message that cannot be understood is set aside at once; an unknown decoding error is not. */
  function DecodeEnding(decoding: Decoding, partition: nat, context: Context): Ending {
    match decoding
    case ContractViolation(error) => GaveUp(partition, context.(reason := SchemaInvalid, attempts := 1, error := error))
    case Unrecognised(error) => GaveUp(partition, context.(reason := Undecodable, attempts := 1, error := error))
    case _ => Threw
  }

  class DomainEventConsumer {
    const broker: InMemoryBroker
    const deadLetters: DeadLetterQueue
    const policy: Policy
    const groupId: string

    constructor (broker: InMemoryBroker, deadLetters: DeadLetterQueue, policy: Policy, groupId: string)
      ensures this.broker == broker && this.deadLetters == deadLetters && this.policy == policy && this.groupId == groupId
    {
      this.broker, this.deadLetters, this.policy, this.groupId := broker, deadLetters, policy, groupId;
    }

    /** One broker and one dead-letter topic throughout. */
    predicate Wired() {
      deadLetters.broker == broker && deadLetters.topic == broker.cfg.deadLetters
    }

    /** A call of this consumer's own subscription that has not ended. */
    predicate Awaited(call: nat)
      reads broker
    {
      call < |broker.calls| && broker.calls[call].group == groupId && broker.calls[call].result == Running
    }

    /** Sets what the handler's promise becomes. */
    method SetResult(call: nat, result: CallResult)
      requires call < |broker.calls|
      modifies broker
      ensures broker.State() == old(broker.State()).(calls := old(broker.calls)[call := old(broker.calls)[call].(result := result)])
    {
      broker.calls := broker.calls[call := broker.calls[call].(result := result)];
    }

    /** The end of the line: returning normally commits, so it does only once a copy exists. */
    method GiveUp(call: nat, partition: nat, context: Context) returns (ok: bool)
      requires Wired() && Awaited(call) && deadLetters.InRange(partition)
      modifies broker
      ensures broker.State() == Act(broker.cfg, old(broker.State()), Finish(call, GaveUp(partition, context)))
      ensures ok <==> broker.calls[call].result == Resolved
    {
      var c := broker.calls[call];
      ok := false;
      if deadLetters.Enabled() {
        ok := deadLetters.Send(c, groupId, partition, context);
      }
      SetResult(call, if ok then Resolved else Rejected);
    }

    /**
     * Handles one message. `script` is what the subscribers do on each attempt, `context` when
     * it gave up and how the error is described. The handler's promise resolves exactly when every subscriber accepted the
     * event or a copy of the message is on the dead-letter topic.
     */
    method Dispatch(call: nat, decoding: Decoding, script: seq<Try>, partition: nat, context: Context)
      returns (ending: Ending)
      requires Wired() && Awaited(call) && deadLetters.InRange(partition) && |script| >= Attempts(policy)
      modifies broker
      ensures broker.State() == Act(broker.cfg, old(broker.State()), Finish(call, ending))
      ensures ending.Handled? <==> decoding.Decoded? && exists a :: SucceedsAt(policy, script, a)
      ensures ending.GaveUp? <==>
                decoding.ContractViolation? || decoding.Unrecognised? || (decoding.Decoded? && Exhausts(policy, script))
      ensures decoding.ContractViolation? ==>
                ending == GaveUp(partition, context.(reason := SchemaInvalid, attempts := 1, error := decoding.error))
      ensures decoding.Unrecognised? ==>
                ending == GaveUp(partition, context.(reason := Undecodable, attempts := 1, error := decoding.error))
      ensures decoding.Broken? ==> ending == Threw
      ensures decoding.Decoded? && ending.GaveUp? ==>
                var n := Attempts(policy);
                ending == GaveUp(partition, context.(reason := HandlerFailed, attempts := n, error := script[n - 1].error))
    {
      if !decoding.Decoded? {
        ending := DecodeEnding(decoding, partition, context);
      } else {
        var ladder := RunRetryLadder(policy, script);
        match ladder {
          case Succeeded(attempts) =>
            ending := Handled;
          case Exhausted(attempts, error) =>
            NotBoth(policy, script);
            ending := GaveUp(partition, context.(reason := HandlerFailed, attempts := attempts, error := error));
          case Aborted =>
            ending := Threw;
        }
      }
      match ending {
        case Handled =>
          var c := broker.calls[call];
          broker.accepted := broker.accepted + {Accepted(c.group, c.key, c.offset)};
          SetResult(call, Resolved);
        case GaveUp(p, ctx) =>
          var ok := GiveUp(call, p, ctx);
        case Threw =>
          SetResult(call, Rejected);
      }
    }
  }

  lemma NotBoth(policy: Policy, script: seq<Try>)
    requires Exhausts(policy, script)
    ensures !exists a :: SucceedsAt(policy, script, a)
  {
  }
}
