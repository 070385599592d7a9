/** What is kept of a message its consumer gave up on. */
module DeadLetters {
  import opened Common
  import opened Decimal
  import opened Groups

  datatype Reason = Undecodable | SchemaInvalid | HandlerFailed

  /** What the consumer knows when it gives up. */
  datatype Context = Context(reason: Reason, attempts: nat, error: string, errorType: string, failedAt: string)

  function ReasonText(r: Reason): string {
    match r
    case Undecodable => "undecodable"
    case SchemaInvalid => "schema-invalid"
    case HandlerFailed => "handler-failed"
  }

  function DeadLetterHeaders(group: string, key: Key, offset: nat, context: Context): map<Header, string> {
    map[
      DltReason := ReasonText(context.reason),
      DltError := Truncate(context.error),
      DltErrorType := context.errorType,
      DltAttempts := Print(context.attempts),
      DltGroup := group,
      DltOriginTopic := key.topic,
      DltOriginPartition := Print(key.partition),
      DltOriginOffset := Print(offset),
      DltFailedAt := context.failedAt
    ]
  }

  /** The value byte for byte, the key, and the producer's headers under the new ones, which name the group that gave up. */
  function DeadLetter(record: Record, group: string, key: Key, offset: nat, context: Context): Record {
    record.(headers := record.headers + DeadLetterHeaders(group, key, offset, context))
  }

  /** The same key, bytes and producer's headers, naming where the original is and the group that gave up on it. */
  predicate IsCopy(copy: Record, original: Record, group: string, key: Key, offset: nat) {
    && copy.key == original.key && copy.value == original.value
    && (forall h :: h in original.headers && h.Producer? ==> h in copy.headers && copy.headers[h] == original.headers[h])
    && (forall h :: h in copy.headers && h.Producer? ==> h in original.headers)
    && DltGroup in copy.headers && copy.headers[DltGroup] == group
    && DltOriginTopic in copy.headers && copy.headers[DltOriginTopic] == key.topic
    && DltOriginPartition in copy.headers && copy.headers[DltOriginPartition] == Print(key.partition)
    && DltOriginOffset in copy.headers && copy.headers[DltOriginOffset] == Print(offset)
  }

  lemma DeadLetterIsCopy(record: Record, group: string, key: Key, offset: nat, context: Context)
    ensures IsCopy(DeadLetter(record, group, key, offset, context), record, group, key, offset)
  {
  }

  /** A dead letter names one place and one group: two originals of one copy are the same offset, given up on by the same group. */
  lemma OriginIsExact(copy: Record, a: Record, g: string, k: Key, i: nat, b: Record, h: string, l: Key, j: nat)
    requires IsCopy(copy, a, g, k, i) && IsCopy(copy, b, h, l, j)
    ensures g == h && k == l && i == j
  {
    PrintInjective(k.partition, l.partition);
    PrintInjective(i, j);
  }

  /** The headers say why it was given up on, after how many attempts and when. */
  predicate Tells(copy: Record, context: Context) {
    && DltReason in copy.headers && copy.headers[DltReason] == ReasonText(context.reason)
    && DltError in copy.headers && copy.headers[DltError] == Truncate(context.error)
    && DltErrorType in copy.headers && copy.headers[DltErrorType] == context.errorType
    && DltAttempts in copy.headers && copy.headers[DltAttempts] == Print(context.attempts)
    && DltFailedAt in copy.headers && copy.headers[DltFailedAt] == context.failedAt
  }

  lemma DeadLetterTells(record: Record, group: string, key: Key, offset: nat, context: Context)
    ensures Tells(DeadLetter(record, group, key, offset, context), context)
  {
  }

  lemma HeadersAreTheSame(g: string, k: Key, i: nat, a: Context, h: string, l: Key, j: nat, b: Context)
    ensures DeadLetterHeaders(g, k, i, a).Keys == DeadLetterHeaders(h, l, j, b).Keys
  {
  }

  lemma Overwritten<K, V>(base: map<K, V>, first: map<K, V>, second: map<K, V>)
    requires first.Keys == second.Keys
    ensures base + first + second == base + second
  {
  }

  /** A message that failed again after a redrive tells only of the last failure, whatever it carried before. */
  lemma RedriveOverwrites(record: Record, g: string, k: Key, i: nat, first: Context, h: string, l: Key, j: nat, second: Context)
    ensures var again := DeadLetter(DeadLetter(record, g, k, i, first), h, l, j, second);
            again == DeadLetter(record, h, l, j, second) && Tells(again, second) && IsCopy(again, record, h, l, j)
  {
    HeadersAreTheSame(g, k, i, first, h, l, j, second);
    Overwritten(record.headers, DeadLetterHeaders(g, k, i, first), DeadLetterHeaders(h, l, j, second));
    DeadLetterTells(record, h, l, j, second);
    DeadLetterIsCopy(record, h, l, j, second);
  }
}
