# Verified model of the API service

A Dafny model of the parts of the service that coordinate things: sagas and the checkout built on
them, the event-schema compatibility checker, the audit hash chain, the message broker with its
consumer, refresh-token families, log redaction, slow-consumer handling, room membership, scope
tracing and money. `dafny verify dfyconfig.toml` checks all of it.

Code that updates things in place is modelled by classes and methods whose contracts tie the new
state to a function of the old one; code that computes is modelled by functions. What is promised
over whole runs is proved on the functions, for every sequence of atomic steps.

## How the files fit together

- **Sagas.** `SagaDefinition` (which definitions are accepted), `SagaMachine` (one sequential
  runner), `SagaShape` (what every reachable record looks like, pivot safety, reverse-order
  compensation, termination), `SagaAttempts` (how attempts are counted), `SagaRows` (atomic row
  updates), `SagaSystem` (any number of runners, crashes and expiring leases, refining the sequential
  runner), `SagaLeases` (what a lease protects), `SagaOrchestrator` (the drive loop and the recovery
  pass). `Backoff` is shared with the consumer.
- **Checkout.** `Checkout` gives the five steps and their compensations over a world of order, stock,
  payment, shipment and staged events; `CheckoutRuns` proves what every run of them ends in.
- **Event schemas.** `Schema` gives schemas their meaning, `Compatibility` is the checker and its
  soundness, `SchemaHistory` the mirrored direction and whole histories, `SchemaWitness` its
  completeness, `SchemaFindings` what each finding says of the place it names.
- **Audit log.** `Json`, `Decimal`, `Numbers`, `JsonText` and `CanonicalJson` are the canonical
  encoding, `AuditEntry` the preimage, `AuditChain` sealing, appending, paging and verifying,
  `AuditFormat` the texts against the formats they are said to be, `AuditDrafts` that the log tells
  what was drafted, `AuditHistory` what one head hash pins.
- **Messaging.** `Groups` (logs, dealing of partitions), `DeadLetters`, `Broker` (the state machine
  and why nothing is lost), `ReadPositions` (where members resume), `BrokerMembership` (leaving and
  disconnecting), `InMemoryBroker` (the broker in place), `Consumer` (retry ladder, dispatch,
  dead-lettering).
- **Refresh tokens.** `RefreshTokens` (runs of whole claims), `RefreshLocks` (claims as locking
  transactions, refining them), `AuthService` (the store and the rotation in place).
- **Logging.** `Redaction` and `Allowlist`.
- **Realtime and the rest.** `Backpressure`, `Rooms`, `Realtime`, `RealtimeGateway`, `ScopeTrace`,
  `Money`. `Common` holds what they share.

## What is taken as given

- Owner ids, tokens, family ids, sockets and connection ids are drawn fresh. All runners hold the
  same saga definitions. Participants of a checkout are idempotent on their key, and the bodies of
  one checkout's steps do not overlap. A payment's id is not empty, and the gateway finds a payment
  that exists.
- What a payment gateway may answer is three sets of statuses, for opening, capturing and refunding a
  payment; theorems are for all of them. A payment may change by itself at any moment: a processing
  one succeeds or fails, one that waits for the buyer is authorised or cancelled, an authorisation
  lapses.
- Randomness, clocks, answers of participants, subscribers, gateways and other runners are inputs,
  and every theorem is for all of them.
- The audit hash is any function from text to 64 lower-case hex digits. It cannot be injective, so
  the theorems about it conclude "the same, or here are two different texts with one hash".
- A JSON number is its sign, its shortest digits and the place of its point, as
  Number::toString of ECMA-262 derives them from a finite double; zero has no sign. Strings are sequences of Unicode
  scalar values. Schema formats are an arbitrary predicate, `scrubSecrets` and `toUpperCase`
  arbitrary functions (the latter leaving upper-case codes alone).
- Each step of a state machine is what happens between two awaits, or one database statement, or
  one transaction that holds its locks to its end. The partition a message lands on is arbitrary.
- In a broker member's read pass, the keys visited are those assigned when the pass began: the loop
  goes on over the old array after a rebalance replaces it.

## Where the code and its comments differ

- `src/saga/saga-definition.ts:146` gives the shape as `compensatable* pivot? retriable*`. The code
  refuses a retriable step when there is no pivot (`RetriableNeedsPivot`).
- `src/orders/checkout.saga.ts:212-214` says a charge leaves a payment captured, or authorised and
  never captured, and `240-249` leaves what is not captured to lapse. The step does not look at the
  status a capture or a refund is answered with, and a gateway may answer `processing` or `failed`; the
  PayPal adapter reports a pending capture as the one and a declined capture as the other
  (`src/payments/providers/paypal-payment.provider.ts:412-413`). A failed capture then ends in a
  confirmed order nobody paid for (`FailedCaptureCompletes`), a late settlement in a cancelled one that
  was (`LateSettlementIsNotRefunded`). The promise holds exactly on gateways whose answers are final
  (`PromiseNeedsFinalAnswers`).
- `src/schema-registry/compatibility.ts:108-113` illustrates why consecutive checks are not enough
  by a field moving from required to optional to gone. Required to optional is itself reported. The
  claim is right for another reason: an optional property removed and added back at another type
  (`ConsecutiveChecksAreNotEnough`).
- `src/messaging/in-memory-broker.ts:271-275` says a lost partition takes its read position with it, so
  that a member that gets it back resumes from what the group committed. A pass that goes on over the
  old assignment, or a handler that resolves late, sets the position again after it was dropped, and
  the member re-reads what others handled (`OldPassReadsBelowCommit`, `LateResolveReadsBelowCommit`).
  Without those two the saying is true (`ResumesFromCommitsIff`).
- `src/realtime/backpressured-socket.ts:59-62` says a connection is closed if it is still over the
  mark when the grace window ends. A review closes it then even if it has drained
  (`DrainedAndClosed`), and the saying is true of every run only where no connection can be behind and
  open at all (`ClosedOnlyOverTheMarkIff`).

## Model

| member | source | states |
|---|---|---|
| `Backoff.NextAttemptDelay` | src/common/backoff/backoff.ts:38-50 | No delay exactly when the attempts are spent; otherwise a delay within the cap and within base times two to the attempt (at most thirty doublings) |
| `Backoff.CeilingDoubles` | src/common/backoff/backoff.ts:45-48 | The ceiling starts at the base, doubles with each failure, and stops at the cap or after thirty doublings |
| `Backoff.DelayIsTheShareDrawn` | src/common/backoff/backoff.ts:47-49 | The delay is the share of the ceiling that was drawn, rounded down to whole milliseconds |
| `SagaDefinition.DefineSaga` | src/saga/saga-definition.ts:153-195 | Accepts exactly the well-formed definitions: at least one step, distinct names, compensatable steps then optionally one pivot and retriable steps. Each refusal names the first check that fails and a step that fails it |
| `SagaDefinition.FirstDuplicate` | src/saga/saga-definition.ts:161-167 | Finds a repeated name exactly when there is one |
| `SagaDefinition.FindPivots` | src/saga/saga-definition.ts:169-176 | Finds the first pivot and whether there is another |
| `SagaDefinition.RetriableNeedsPivot` | src/saga/saga-definition.ts:146-195 | A retriable step without a pivot is refused, which the comment on the function does not say |
| `SagaMachine.RetryAt` | src/saga/saga-orchestrator.service.ts:378-381 | A retry is scheduled exactly when the error may be retried and attempts are left, never in the past, and exactly the backoff's delay from now |
| `SagaMachine.MergeState` | src/saga/saga-orchestrator.service.ts:499-506 | Patch members win, members set to `undefined` leave the state as it was, and nothing else changes |
| `SagaMachine.FailureFrom` | src/saga/saga-orchestrator.service.ts:471-488 | Exactly the step and message of the most recent forward failure of the log; when the log has none, the step at the cursor, or `unknown` when there is none; a missing message is the record's last error, else `unknown failure` |
| `SagaShape.ExecuteKeepsShape` | src/saga/saga-orchestrator.service.ts:204-289 | Running a step forward, whatever it answers, takes a record of the fixed shape to a record of the fixed shape |
| `SagaShape.CompensateKeepsShape` | src/saga/saga-orchestrator.service.ts:291-375 | So does compensating or skipping a step |
| `SagaShape.ForwardTurn` | src/saga/saga-orchestrator.service.ts:204-289 | What one turn forward means, for every answer and every field: moved on with the patch folded in; waiting for a retry after the backoff's delay, one attempt more; turned round with the failed step first to undo and no attempts used; or stuck at a retriable step; always with one entry more that gives step, attempt, time and the error cut to length |
| `SagaShape.BackwardTurn` | src/saga/saga-orchestrator.service.ts:291-375 | The same backward, field by field: moved back, compensated or skipped, with no attempts used; waiting; or stuck; the state untouched |
| `SagaShape.RefusedExactly` | src/saga/saga-orchestrator.service.ts:183-202 | A record is refused exactly when the steps its log completed are not the definition's first ones in order, or else its cursor names no step; it is then stuck with everything else as it was |
| `SagaAttempts.AttemptsAreTheFailuresAtHand` | src/saga/saga-orchestrator.service.ts:204-375 | Over every run: the attempt count is the number of failures, at the end of the log, of the step at hand in the direction it is going, so every step and every compensation starts from nought |
| `SagaAttempts.GivesUpExactlyWhenSpent` | src/saga/saga-orchestrator.service.ts:204-381 | Over every run: a step or a compensation is given up on exactly when it throws an error not to be retried, or the log ends in as many failures of it as the policy allows |
| `SagaShape.ReachableShape` | src/saga/saga-orchestrator.service.ts:183-375 | Every record of every run: RUNNING at c has completed exactly steps 0 to c-1; COMPENSATING at c turned round at some t, completed exactly steps before t and undid t down to c+1 in that order; likewise for the settled statuses |
| `SagaShape.NeverRefused` | src/saga/saga-orchestrator.service.ts:450-468 | `assertResumable` accepts every record a run of the same definition leaves |
| `SagaShape.CompensationKnowsItsCause` | src/saga/saga-orchestrator.service.ts:471-488 | While compensating, the failure a compensation is told about is the one of the step the saga turned round at |
| `SagaShape.CommittedNeverBacksOut` | src/saga/saga-orchestrator.service.ts:249-289 | A record whose log holds the pivot's completion is not backing out, and if stuck, is stuck at a retriable step |
| `SagaShape.PivotSafety` | src/saga/saga-orchestrator.service.ts:249-315 | Once the pivot's completion is logged, no later record of the run is COMPENSATING or COMPENSATED |
| `SagaShape.CompensatedUndidEverything` | src/saga/saga-orchestrator.service.ts:291-375 | COMPENSATED means every step from the turning point to the first was undone in exact reverse order, only a pivot ever skipped and only as the first of them |
| `SagaShape.LogIsBounded` | src/saga/saga-orchestrator.service.ts:204-381 | The log never exceeds two entries per step and attempt |
| `SagaShape.UnsettledRunLogsEveryTurn` | src/saga/saga-orchestrator.service.ts:204-375 | Until a run settles, each turn adds exactly one entry to the log |
| `SagaShape.EverySagaSettles` | src/saga/saga-orchestrator.service.ts:133-180 | A run longer than that bound is in a terminal status |
| `SagaRows.SagaStore.Create` | src/saga/prisma-saga.store.ts:52-68 | A new row starts unleased, at the first step, with an empty log; no other row changes |
| `SagaRows.SagaStore.Claim` | src/saga/prisma-saga.store.ts:89-104 | Leases the row until the lease's length from now exactly when it is unsettled, due, and not leased past now; any other row, and every record, is as it was |
| `SagaRows.SagaStore.ClaimDue` | src/saga/prisma-saga.store.ts:116-136 | Every row leased was unsettled, due and free; every row of that kind left out comes after all of those by due time and id, and only when the limit is reached; no other row is touched |
| `SagaRows.SagaStore.Save` | src/saga/prisma-saga.store.ts:138-166 | Writes the progress exactly when the caller still holds the lease; otherwise changes nothing |
| `SagaRows.SagaStore.Abandon` | src/saga/prisma-saga.store.ts:168-176 | Marks the row STUCK with the reason and releases it, whoever holds it; nothing else of it changes |
| `SagaLeases.TakenExactly` | src/saga/prisma-saga.store.ts:89-136 | In every interleaving, a new runner takes exactly the rows it asks for that are unsettled, due, and leased to nobody or past their lease, each until now plus the lease's length; every other row is untouched |
| `SagaLeases.LeaseProtects` | src/saga/prisma-saga.store.ts:89-166 | In every interleaving, a leased row stays exactly as it is, record and lease, until its holder saves it or someone claims it after the lease has run out |
| `SagaLeases.SavedExactly` | src/saga/prisma-saga.store.ts:138-166 | In every interleaving, the holder's save renews the lease for its full length when the saga goes on at once, and gives it up exactly when the saga has settled or waits; anyone else's save changes no row |
| `SagaLeases.HandedOverOnlyWhenFree` | src/saga/prisma-saga.store.ts:89-166 | In every interleaving, a row gets another holder only by that one's claim, and only when the lease it had has run out |
| `SagaOrchestrator.UnrunnableIsStuck` | src/saga/saga-orchestrator.service.ts:141-159 | A claimed saga whose definition is gone or has moved is stuck at once, unleased, with nothing else of it changed |
| `SagaSystem.WorkIsAlwaysPossible` | src/saga/saga-orchestrator.service.ts:183-202 | In every interleaving, whatever version of a row a runner holds, its next step can be run |
| `SagaSystem.LandedSave` | src/saga/prisma-saga.store.ts:138-166 | In every interleaving, a save that lands was computed from exactly the record it overwrites |
| `SagaSystem.RowsRefineSequentialRuns` | src/saga/saga-orchestrator.service.ts:133-180 | For any number of runners, any interleaving of claims, batch claims, steps, saves, crashes and lease expiries: each row is what one sequential runner gets from the turns whose saves landed |
| `SagaSystem.EachActionIsAtMostOneTurn` | src/saga/prisma-saga.store.ts:89-166 | One action of the interleaved system changes a record only as a save by the lease holder, and then by one sequential turn |
| `SagaSystem.InterleavedPivotSafety` | src/saga/saga-orchestrator.service.ts:249-315 | Pivot safety over every interleaving and everything that may follow it |
| `SagaSystem.SavesAreBounded` | src/saga/saga-orchestrator.service.ts:204-381 | However many runners contend, a saga is saved at most twice per step and attempt |
| `SagaOrchestrator.DriveSettles` | src/saga/saga-orchestrator.service.ts:133-180 | A drive ends settled, waiting or without its lease, within 2n iterations for n steps, so the branch that gives up is unreachable; unless it lost the lease, the row is the sequential run over the turns used |
| `SagaOrchestrator.DriveTurn` | src/saga/saga-orchestrator.service.ts:133-180 | Any turn of an unsettled saga can be taken, and brings the drive strictly nearer its end unless it is to wait |
| `SagaOrchestrator.SagaOrchestrator.Drive` | src/saga/saga-orchestrator.service.ts:133-180 | The loop computes exactly that function of the claimed record and of what happens meanwhile, and touches no other row |
| `SagaOrchestrator.SagaOrchestrator.DriveSteps` | src/saga/saga-orchestrator.service.ts:145-180 | The same for a saga whose definition is registered, iteration by iteration |
| `SagaOrchestrator.SagaOrchestrator.DriveOnce` | src/saga/saga-orchestrator.service.ts:147-174 | One iteration: done, given up, without its lease, saved and released, or saved and going on |
| `SagaOrchestrator.SagaOrchestrator.SaveStep` | src/saga/saga-orchestrator.service.ts:160-171 | A step is written over whatever the row has become, exactly when the row is still leased to this runner, and the record returned is the row's |
| `SagaOrchestrator.SagaOrchestrator.Advance` | src/saga/saga-orchestrator.service.ts:116-121 | An unknown id gives nothing; a row that cannot be claimed is reported as it stands; a claimed one is driven and the report is the row |
| `SagaOrchestrator.SagaOrchestrator.RunOnce` | src/saga/saga-recovery.service.ts:100-113 | A recovery pass claims the due sagas and drives each once, in the order the claim lists them, over whatever others did to the rows meanwhile; the table it leaves is exactly that, the report lists each saga as it was left, and none is abandoned |
| `SagaOrchestrator.SagaOrchestrator.AdvanceBatch` | src/saga/saga-recovery.service.ts:106-112 | Drives the claimed sagas in turn; the rows are what that sequence of drives makes of them |
| `SagaOrchestrator.SagaOrchestrator.AdvanceOne` | src/saga/saga-recovery.service.ts:115-132 | One of them: its row is the drive of what was claimed, no other row changes, and a saga whose definition is known is not abandoned |
| `Checkout.CheckoutIsWellFormed` | src/orders/checkout.saga.ts:109-111 | The checkout definition is one that `defineSaga` accepts |
| `Checkout.CheckoutSaga.Transition` | src/orders/checkout.saga.ts:151-166 | Commits a transition with its event, or neither; a lost answer is not a lost write |
| `Checkout.CheckoutSaga.AcceptOrder` | src/orders/checkout.saga.ts:122-142 | Moves only a pending order, at most once, and returns only when the order exists and is past pending; a call that fails before its write changes nothing |
| `Checkout.CheckoutSaga.CancelOrder` | src/orders/checkout.saga.ts:143-168 | Cancels an order that is there and not cancelled, with the cause and one cancellation event beside it, or changes nothing; returns only when the order is gone or cancelled |
| `Checkout.CheckoutSaga.ReserveStock` | src/orders/checkout.saga.ts:170-192 | Holds stock at most once under the step's key; out of stock is final; may take effect and still fail |
| `Checkout.CheckoutSaga.ReleaseStock` | src/orders/checkout.saga.ts:193-203 | When it returns nothing is held, whether or not anything was |
| `Checkout.CheckoutSaga.Authorize` | src/orders/checkout.saga.ts:225-229 | Idempotent on the reference: an existing payment is returned as it stands |
| `Checkout.CheckoutSaga.ChargePayment` | src/orders/checkout.saga.ts:216-233 | One payment per saga: authorised if there is none, captured exactly when it is authorised. Returns exactly what the capture gives, whatever status the gateway answers a capture with, and always with the payment's id; a payment neither captured nor authorised is refused for good and left as it is |
| `Checkout.CheckoutSaga.CaptureIfNeeded` | src/orders/checkout.saga.ts:340-368 | Returns exactly when the payment is captured already, the capture is answered (whatever the answer says), or a refused capture is found captured; fails for good exactly when the payment needs the buyer or a refused capture is found not captured; the payment takes the answered status and nothing else changes |
| `Checkout.CheckoutSaga.ResolvePayment` | src/orders/checkout.saga.ts:389-401 | By id the payment with that id or nothing; by reference the saga's own, authorised now if there was none |
| `Checkout.CheckoutSaga.RefundPayment` | src/orders/checkout.saga.ts:234-253 | Asks for a refund exactly of a captured payment that is found, and returns whatever the refund is answered with; a payment found by its reference may be created on the way; one that is not captured is left as it is |
| `Checkout.CheckoutSaga.CreateShipment` | src/orders/checkout.saga.ts:258-282 | One shipment, under the step's key; an unserviced destination is final and changes nothing |
| `Checkout.CheckoutSaga.ConfirmOrder` | src/orders/checkout.saga.ts:293-326 | Confirms once, staging exactly one confirmation with the payment and the shipment; whatever it throws may be retried |
| `Checkout.KeyIsOfOneStep` | src/saga/saga-orchestrator.service.ts:383-395 | No two sagas and no two steps share an idempotency key, ids having no colon |
| `CheckoutRuns.CheckoutEndsAsPromised` | src/orders/checkout.saga.ts:122-401 | On gateways whose answers are final, over every sequential run in which each call may succeed, fail, or take effect and fail, and in which payments settle, are approved or lapse at any moment: COMPLETED means confirmed, captured, held, shipped and exactly one event, `order.confirmed`; COMPENSATED means cancelled with its cause, nothing held, nothing captured and unrefunded, and exactly one event, `order.cancelled` |
| `CheckoutRuns.LateSettlementIsNotRefunded` | src/orders/checkout.saga.ts:340-401 | On any gateway that may answer a capture `processing`, a run that ends COMPENSATED with money captured |
| `CheckoutRuns.FailedCaptureCompletes` | src/orders/checkout.saga.ts:340-368 | On any gateway that may answer a capture with a status that is no capture (`failed`, say), a run that ends COMPLETED, confirmed and shipped, with nothing captured |
| `CheckoutRuns.OpenedProcessingIsNotRefunded` | src/orders/checkout.saga.ts:234-253 | On any gateway that may open a payment `processing`, a run that ends COMPENSATED with money captured |
| `CheckoutRuns.UnrefundedIsCompensated` | src/orders/checkout.saga.ts:234-253 | On any gateway that may answer a refund without having refunded, a run that ends COMPENSATED with money captured |
| `CheckoutRuns.PromiseNeedsFinalAnswers` | src/orders/checkout.saga.ts:340-401 | The promise holds of every run if and only if the gateway never opens a payment `processing`, answers a capture only with the money taken, and answers a refund neither with the money kept nor `processing`; the last two only where money can be authorised or taken at all |
| `Compatibility.Check` | src/schema-registry/compatibility.ts:80-87 | Refuses exactly a pair in which one is not an object schema in the profile, else returns every finding |
| `Compatibility.CompareNodes` | src/schema-registry/compatibility.ts:131-164 | Pushes exactly the findings of the two nodes, in order, onto the shared array |
| `Compatibility.CompareObjects` | src/schema-registry/compatibility.ts:170-239 | The same for objects, key by key over every key either declares |
| `Compatibility.ComparePropertyAt` | src/schema-registry/compatibility.ts:180-238 | The same for one key: its presence rules, then its schemas |
| `Compatibility.CompareScalars` | src/schema-registry/compatibility.ts:241-289 | The same for scalars: types, then `enum`, then `format` |
| `Compatibility.CompareTypes` | src/schema-registry/compatibility.ts:241-262 | The type rule, both ways, an integer counting as a number |
| `Compatibility.CompareEnums` | src/schema-registry/compatibility.ts:264-273 | The `enum` rule, an absent list allowing everything |
| `Compatibility.CompareConstraint` | src/schema-registry/compatibility.ts:300-340 | The rule shared by `enum` and `format`: added, removed or changed |
| `Compatibility.AllKeysComplete` | src/schema-registry/compatibility.ts:178-180 | The keys compared are exactly those either schema declares |
| `Compatibility.FindingsOfKeys` | src/schema-registry/compatibility.ts:170-239 | The findings of an object are exactly those of its keys |
| `Compatibility.BackwardSound` | src/schema-registry/compatibility.ts:131-368 | If nothing reported breaks backward, every value valid under the old schema that carries only properties it declares is valid under the new one |
| `SchemaHistory.ForwardSound` | src/schema-registry/compatibility.ts:131-368 | If nothing reported breaks forward, every such value of the new schema is valid under the old one |
| `SchemaHistory.Mirror` | src/schema-registry/compatibility.ts:131-352 | Backward breaks of (a, b) are exactly forward breaks of (b, a), at the same places, under the mirrored rules |
| `Compatibility.ReportIsExact` | src/schema-registry/compatibility.ts:131-352 | Something reported breaks backward exactly when the compatibility rules, said without the report, are broken at some depth |
| `SchemaFindings.ReportedIffBroken` | src/schema-registry/compatibility.ts:131-352 | A rule is reported at a path, for some directions, if and only if that path leads in both schemas to nodes, or to a property, that break it in just those directions |
| `SchemaHistory.ForwardReportIsExact` | src/schema-registry/compatibility.ts:131-352 | Something reported breaks forward exactly when those rules are broken the other way round |
| `SchemaHistory.FullyCompatibleIsExact` | src/schema-registry/compatibility.ts:90-98 | The report is empty exactly when the rules hold both ways |
| `SchemaWitness.ReportedIffUnreadable` | src/schema-registry/compatibility.ts:131-352 | Sound and complete: for an old schema with no `type` or `enum` entry that no value can use, and a new one that adds an `enum` only where the old one has unboundedly many values and sets a `format` only if the old schema names it nowhere, a backward break is reported if and only if some value written against the old schema is refused by a reader on the new one |
| `SchemaWitness.Refuted` | src/schema-registry/compatibility.ts:131-352 | That value, built from the schemas: valid under the old, carrying only what it declares, and refused by the new, under a validator that knows exactly the old schema's formats |
| `SchemaWitness.FullyCompatibleIffReadable` | src/schema-registry/compatibility.ts:90-98 | For two such schemas the report is empty if and only if each reads all the other writes |
| `SchemaWitness.ListedAndReported` | src/schema-registry/compatibility.ts:264-273 | Without that room, a report no value can show: listing the only value there is |
| `SchemaWitness.NarrowedAndReported` | src/schema-registry/compatibility.ts:241-262 | With a `type` no listed value uses, a report no value can show: dropping it |
| `SchemaWitness.SharedFormatAndReported` | src/schema-registry/compatibility.ts:300-340 | With a `format` the old schema names elsewhere, a report no value can show, although the old schema names no format twice |
| `SchemaHistory.FindingsBreakSomething` | src/schema-registry/compatibility.ts:131-352 | Every finding breaks at least one direction |
| `SchemaHistory.CompatibleReadsBothWays` | src/schema-registry/compatibility.ts:90-103 | An empty report means each schema reads what the other writes |
| `SchemaHistory.AssertHistoryIsFullyCompatible` | src/schema-registry/compatibility.ts:118-129 | Passes exactly when every pair of versions is in the profile and fully compatible, else names the first pair that is not, and whether it is outside the profile or what all its findings are |
| `SchemaHistory.CheckedHistoryIsReadable` | src/schema-registry/compatibility.ts:118-129 | Every version of a history that passes reads what every version writes |
| `SchemaHistory.ConsecutiveChecksAreNotEnough` | src/schema-registry/compatibility.ts:105-129 | A history whose consecutive pairs are compatible and whose ends are not: an optional property removed and added back at another type |
| `SchemaHistory.CompatibilityComposes` | src/schema-registry/compatibility.ts:131-352 | Compatibility of (a, b) and (b, c) gives (a, c) when b keeps a's properties at every depth |
| `SchemaHistory.ConsecutiveChecksSufficeWithoutRemovals` | src/schema-registry/compatibility.ts:105-129 | Consecutive checks give the all-pairs check when no version removes a property |
| `CanonicalJson.CanonicalPrints` | src/audit/audit-hash.ts:58-108 | A value is encoded exactly when nothing in it is outside JSON, and then as the text of its key-sorted form |
| `CanonicalJson.SortSorts` | src/audit/audit-hash.ts:95-107 | Members are sorted by UTF-16 code unit, and are the same members |
| `CanonicalJson.CanonicalIdentifies` | src/audit/audit-hash.ts:58-108 | Two JSON values have the same canonical text exactly when they are the same up to the order of members |
| `JsonText.PrintThenInjective` | src/audit/audit-hash.ts:58-108 | JSON text determines the value printed and what follows it |
| `JsonText.EscapeThenInjective` | src/audit/audit-hash.ts:62-63 | Quoted and escaped strings are told apart, whatever follows |
| `Numbers.NumberTextInjective` | src/audit/audit-hash.ts:66-74 | No two finite numbers are written alike |
| `AuditEntry.IsoInjective` | src/audit/audit-hash.ts:151-165 | No two instants are written alike |
| `AuditEntry.FieldInjective` | src/audit/audit-hash.ts:134-137 | A length-prefixed field determines its value and what follows, null kept apart from the empty string |
| `AuditEntry.FieldsInjective` | src/audit/audit-hash.ts:134-165 | So does a list of fields with the same names |
| `AuditEntry.PreimageIdentifies` | src/audit/audit-hash.ts:151-165 | Two entries are hashed as the same text exactly when every hashed field agrees, details up to member order |
| `AuditFormat.StringReadsBack` | src/audit/audit-hash.ts:62-63 | Every string reads back from its escaped form as section 7 of RFC 8259 reads it; only quotes, backslashes and control characters are escaped, the short way where there is one |
| `AuditFormat.NumberIsSpelled` | src/audit/audit-hash.ts:66-74 | Every finite number is spelled as section 6 of RFC 8259 spells numbers and denotes itself, with an exponent exactly from 10^21 up and below 10^-6 and no digit that is not needed |
| `AuditFormat.UnitsAreUtf16` | src/audit/audit-hash.ts:95-96 | Keys are compared by the units that decode, as UTF-16, to their characters, so a character outside the basic plane comes before U+E000 |
| `AuditFormat.LengthInBytes` | src/audit/audit-hash.ts:134-137 | A field's length is that of its value in UTF-8, whose bytes decode, in shortest form, to the characters |
| `AuditFormat.YearReadsBack` | src/audit/audit-hash.ts:142-154 | A year is four digits from 0 to 9999 and a sign and six otherwise, and the digits are the year's |
| `AuditFormat.EachUnderItsName` | src/audit/audit-hash.ts:151-165 | Everything recorded is hashed under its own name, no name twice, in the order of the format |
| `AuditFormat.ChainHashIsHex` | src/audit/audit-hash.ts:14-30 | Chain hashes are exactly the strings of 64 lower-case hex digits, and the log starts from the one that is all zeros |
| `AuditChain.SealedSaysTheDraft` | src/audit/audit-hash.ts:184-216 | Sealing is refused exactly for what is not a chain hash, for an unknown action or for details that are not JSON, each with its error; otherwise the entry is the draft, field by field, at that number and hash |
| `AuditChain.AppendKeepsIntact` | src/audit/audit-hash.ts:184-216 | Sealing succeeds exactly for a catalogued action with JSON details, the entry says what the draft said field by field, takes the next number, and keeps the log intact |
| `AuditChain.IntactIffReported` | src/audit/audit-chain.verifier.ts:84-171 | The report says intact exactly when the log is numbered from one, linked and correctly hashed |
| `AuditChain.IntactReport` | src/audit/audit-chain.verifier.ts:119-128 | The report of an intact log gives its length, its first and last number and the hash of its head |
| `AuditChain.RemovalIsReported` | src/audit/audit-chain.verifier.ts:132-143 | Removing any entry but the last is reported at its own number, as a gap or a wrong genesis, after exactly the entries before it passed |
| `AuditChain.EditIsReported` | src/audit/audit-chain.verifier.ts:132-171 | Exactly how rewriting one entry in place is reported: a broken link or a forged hash at its number, a broken link at the next if it was resealed, and nothing only if its hash is still right and unchanged |
| `AuditChain.PageAfterEntry` | src/audit/prisma-audit-log.store.ts:115-122 | A page read after an entry starts at the next entry of the table |
| `AuditChain.AuditLogStore.Read` | src/audit/prisma-audit-log.store.ts:115-122 | The rows above the cursor, lowest first, up to the limit |
| `AuditChain.AuditLogStore.Verify` | src/audit/audit-chain.verifier.ts:84-128 | For every positive page size, and whatever other transactions append, commit and roll back between pages: the walk reports what one pass over the table as it stood at the last page would, rows are only added, and a log that was sound is reported intact |
| `AuditChain.AuditLogStore.NextPage` | src/audit/audit-chain.verifier.ts:97-128 | One page read and inspected: either everything so far passes and a full page was read, or the report is that of the whole table |
| `AuditChain.ActGrows` | src/audit/prisma-audit-log.store.ts:62-108 | Whatever the table holds, an append, commit or rollback only adds rows at its end and keeps the numbers in order |
| `AuditChain.InspectPage` | src/audit/audit-chain.verifier.ts:97-117 | Walks one page up to the first entry that does not pass |
| `AuditChain.AuditLogStore.Append` | src/audit/prisma-audit-log.store.ts:62-108 | Appends under the lock, onto the transaction's own tail, an entry that says what the draft said; another transaction waits; a refused draft appends nothing |
| `AuditDrafts.LogTellsWhatWasDrafted` | src/audit/prisma-audit-log.store.ts:62-108 | Over every run, the committed rows are the acceptable drafts of the committed transactions, one for one, in the order they were made, numbered from one and linked |
| `AuditChain.AuditLogStore.Commit` | src/audit/prisma-audit-log.store.ts:62-76 | Everything the transaction appended becomes part of the log |
| `AuditChain.AuditLogStore.Rollback` | src/audit/prisma-audit-log.store.ts:62-76 | Nothing of it does, and no number is used up |
| `AuditChain.EveryRunStaysIntact` | src/audit/prisma-audit-log.store.ts:62-108 | After any run of appends, commits and rollbacks by any transactions, the committed log verifies |
| `AuditHistory.HeadHashPinsHistory` | src/audit/audit-chain.verifier.ts:132-171 | Two intact logs with one head hash have the same content, entry for entry, or hold two different entries with one hash |
| `AuditHistory.RunsWithOneHeadAgree` | src/audit/prisma-audit-log.store.ts:62-108 | Two runs of the append protocol that end in one head hash recorded the same history, or the logs hold two different texts with one hash |
| `Groups.RebalanceDealsEachOnce` | src/messaging/in-memory-broker.ts:252-282 | Partition j of the subscribed topics goes to member j modulo the group's size and to no other, once; members past the count hold nothing; nobody keeps a position it does not hold the partition of |
| `Groups.OneHolder` | src/messaging/in-memory-broker.ts:252-282 | Each partition of a subscribed topic has exactly one holder |
| `Broker.RebalanceKeeps` | src/messaging/in-memory-broker.ts:252-282 | Rebalancing, even with handlers in flight, loses no message |
| `BrokerMembership.LeavingTakesNobodyElse` | src/messaging/in-memory-broker.ts:191-201 | A member that leaves takes nobody with it: the others stay in their order, with the handlers they wait for, and so do the group's commits and every other group |
| `BrokerMembership.NothingAfterDisconnect` | src/messaging/in-memory-broker.ts:205-215 | Once the broker disconnects, after any run and whatever is tried afterwards: it stays closed, every member is stopped, no record is written, no dead letter either, and no handler is called |
| `Broker.SettlingMovesOnOrReadsAgain` | src/messaging/in-memory-broker.ts:334-349 | At any point of any run: a handler that resolved in time commits and advances past its message; a rejected or timed-out one leaves the commit alone and its member reads the very same offset next, unless a rebalance took its position while the call ran |
| `Broker.VisitReadsNext` | src/messaging/in-memory-broker.ts:308-334 | At any point of any run: a member between calls hands its handler the record at its read position (its own, else the commit, else the start) in the partition it visits, exactly when there is one, and everything before that record is accounted for |
| `Broker.NothingIsLost` | src/messaging/in-memory-broker.ts:252-356 | Over every interleaving of produce, join, stop, leave, disconnect, rebalance, delivery, timeout and late completion: whatever a group reading from the beginning has committed or read past was accepted by every subscriber, or has a copy with the same key and bytes on the dead-letter topic that names this group |
| `Broker.UnaccountedHoldsUpThePartition` | src/messaging/in-memory-broker.ts:293-349 | Order, over every interleaving: while a message is neither accepted by every subscriber nor set aside, no later message of its partition has been handed to the group's handlers |
| `Broker.WithoutDeadLettersAllAccepted` | src/messaging/domain-event-consumer.service.ts:309-340 | With dead-lettering off, everything moved past was accepted by every subscriber |
| `ReadPositions.HoldersResumeFromCommits` | src/messaging/in-memory-broker.ts:269-281 | Over every run in which members act only on partitions they hold, whoever reads a partition next reads on from the group's commit |
| `ReadPositions.OldPassReadsBelowCommit` | src/messaging/in-memory-broker.ts:302-349 | A run in which a pass goes on over a partition its member has lost, after which that member gets it back and would read again what the group committed and every subscriber accepted |
| `ReadPositions.LateResolveReadsBelowCommit` | src/messaging/in-memory-broker.ts:334-349 | The same by a handler that resolves after its partition went to another member |
| `ReadPositions.ResumesFromCommitsIff` | src/messaging/in-memory-broker.ts:269-349 | Members resume from the group's commits in every run if and only if neither of the two is allowed: no pass outlives its assignment and no handler resolves for a lost partition |
| `InMemoryBroker.InMemoryBroker.EnsureTopics` | src/messaging/in-memory-broker.ts:130-143 | Creates the topics that are missing and leaves the others alone; refused once closed |
| `InMemoryBroker.InMemoryBroker.Produce` | src/messaging/in-memory-broker.ts:145-170 | Appends each message to its partition, creating missing topics; refused once closed |
| `InMemoryBroker.InMemoryBroker.CollectTopics` | src/messaging/in-memory-broker.ts:256-256 | Exactly the subscribed topics, each once, in code-unit order |
| `InMemoryBroker.InMemoryBroker.CollectKeys` | src/messaging/in-memory-broker.ts:257-263 | Every partition of those topics, creating missing topics |
| `InMemoryBroker.InMemoryBroker.Deal` | src/messaging/in-memory-broker.ts:265-268 | The round-robin shares |
| `InMemoryBroker.InMemoryBroker.Reassign` | src/messaging/in-memory-broker.ts:269-281 | Each member takes its share and forgets positions outside it |
| `InMemoryBroker.InMemoryBroker.LogsFor` | src/messaging/in-memory-broker.ts:225-232 | Creates a topic that is missing with the default partition count |
| `InMemoryBroker.InMemoryBroker.Rebalance` | src/messaging/in-memory-broker.ts:252-282 | Leaves the group as that dealing says and an empty group alone |
| `InMemoryBroker.InMemoryBroker.Subscribe` | src/messaging/in-memory-broker.ts:172-187 | A member joins last and the group is rebalanced; refused once closed |
| `InMemoryBroker.InMemoryBroker.RemoveMember` | src/messaging/in-memory-broker.ts:190-201 | A stopped member with nothing in flight goes and the group is rebalanced |
| `InMemoryBroker.InMemoryBroker.VisitPartition` | src/messaging/in-memory-broker.ts:308-334 | Resolves the position once, from the commit or the start, and calls the handler only for a record that is there |
| `InMemoryBroker.InMemoryBroker.AfterHandler` | src/messaging/in-memory-broker.ts:334-349 | Commits and advances only after the handler resolved |
| `DeadLetters.OriginIsExact` | src/messaging/dead-letter.ts:40-63 | The headers of a dead letter name one topic, partition and offset, and one group that gave up on it |
| `DeadLetters.RedriveOverwrites` | src/messaging/dead-letter.ts:97-104 | A message dead-lettered again tells only of the last failure and of the group it failed in, and still has its original key, bytes and producer's headers |
| `Consumer.RunRetryLadder` | src/messaging/retry-ladder.ts:63-89 | Succeeds at the first turn that does not fail if attempts are left, is exhausted exactly when every allowed attempt fails, and is aborted only when neither |
| `Consumer.DeadLetterQueue.Send` | src/messaging/dead-letter-queue.service.ts:61-82 | Appends exactly the copy, or reports failure and changes nothing when disabled or closed |
| `Consumer.DomainEventConsumer.GiveUp` | src/messaging/domain-event-consumer.service.ts:309-340 | Returns normally only once a copy exists that names the consumer's own group |
| `Consumer.DomainEventConsumer.Dispatch` | src/messaging/domain-event-consumer.service.ts:237-297 | Ends handled exactly when the event decodes and the ladder succeeds; gives up as schema-invalid on a broken contract, undecodable on any other decoding failure, each after one attempt, and handler-failed after the ladder's attempts; and otherwise throws; the broker is left as the state machine says |
| `RefreshTokens.EveryRunIsOrdered` | src/auth/prisma-refresh-token.store.ts:90-154 | Over every run: a token is claimed at most once, a family reports a reuse at most once and is revoked at most once, nothing of a family is claimed after it is revoked, and a detection counts at most one live token |
| `RefreshTokens.OneLiveTokenOrClaim` | src/auth/auth.service.ts:103-125 | A family's unspent tokens and outstanding claims together never exceed one |
| `RefreshTokens.FirstReasonStands` | src/auth/prisma-refresh-token.store.ts:156-175 | A family is revoked for a reason exactly when that was the first reason given |
| `RefreshTokens.RevokedFamilyIsClosed` | src/auth/prisma-refresh-token.store.ts:121-138 | Presenting any token of a revoked family is refused, a successor issued afterwards included |
| `RefreshTokens.LiveTokenIsClaimed` | src/auth/prisma-refresh-token.store.ts:138-152 | An unspent token of a family never revoked is claimed as it was issued |
| `RefreshTokens.SignInIsClaimed` | src/auth/prisma-refresh-token.store.ts:44-55 | At any point of any run, a sign-in's token is claimed for that user, family and expiry, and no other token's decision changes |
| `RefreshTokens.ReplayClosesTheFamily` | src/auth/prisma-refresh-token.store.ts:126-134 | At any point of any run, presenting a spent token of a live family revokes that family as reused and no other, and every token of it is refused from then on |
| `RefreshTokens.SignOutClosesTheFamily` | src/auth/prisma-refresh-token.store.ts:156-175 | At any point of any run, signing out with any stored token, spent or not, revokes its family and no other: every token of it is refused, a reason given before stands; an unknown token changes nothing |
| `RefreshTokens.PruneKeepsDecisions` | src/auth/prisma-refresh-token.store.ts:185-190 | At any point of any run: after pruning, every token of a family that still has an unexpired one meets exactly the decision it met before, a replayed one included, and every other token is unknown |
| `RefreshTokens.PruneLeavesTheLive` | src/auth/prisma-refresh-token.store.ts:185-190 | At any point of any run: exactly the families with an unexpired token stay, with all their tokens, as they were |
| `RefreshLocks.CommitIsConsume` | src/auth/prisma-refresh-token.store.ts:90-154 | A claim written from the rows it locked is the whole claim made at that moment |
| `RefreshLocks.LockedClaimsAreWhole` | src/auth/prisma-refresh-token.store.ts:90-154 | Every interleaving of claims that lock the token, then the family, then write, with sign-ins, rotations, sign-outs, prunes and aborts, leaves what some run of whole claims leaves |
| `RefreshLocks.InterleavingIsOrdered` | src/auth/prisma-refresh-token.store.ts:54-154 | So the same guarantees hold of the interleaved store |
| `RefreshLocks.ClaimGetsThrough` | src/auth/prisma-refresh-token.store.ts:90-154 | In every interleaving, a claim waits for nothing but its own token and family: with those free it goes through, whatever else is in flight |
| `RefreshLocks.OthersGetThrough` | src/auth/prisma-refresh-token.store.ts:44-190 | In every interleaving, anything else takes effect at once, unless it would revoke a family a claim holds or prune one with a claim in flight |
| `RefreshLocks.NoDeadlock` | src/auth/prisma-refresh-token.store.ts:90-154 | In every interleaving, some claim in flight can go on |
| `AuthService.RefreshTokenStore.IssueFirst` | src/auth/prisma-refresh-token.store.ts:44-55 | A new family with its first token |
| `AuthService.RefreshTokenStore.IssueInto` | src/auth/prisma-refresh-token.store.ts:44-50 | A token more in a family that exists, and nothing in one that does not |
| `AuthService.RefreshTokenStore.Consume` | src/auth/prisma-refresh-token.store.ts:90-154 | Answers and writes what the decision on the token's and the family's rows says |
| `AuthService.RefreshTokenStore.RevokeFamily` | src/auth/prisma-refresh-token.store.ts:199-210 | Revokes the family for reuse and counts its live tokens first |
| `AuthService.RefreshTokenStore.Revoke` | src/auth/prisma-refresh-token.store.ts:170-175 | Revokes the token's family, whether or not the token is spent, unless it is revoked already; an unknown token changes nothing |
| `AuthService.RefreshTokenStore.Prune` | src/auth/prisma-refresh-token.store.ts:185-190 | Deletes exactly the families all of whose tokens have expired, with their tokens, and counts them |
| `AuthService.Refresh` | src/auth/auth.service.ts:103-125 | A claimed, unexpired token is replaced in its family; an expired one is spent without a successor; every other outcome only does what the claim did |
| `AuthService.RotationSpendsAndReplaces` | src/auth/auth.service.ts:103-125 | After a rotation the new token is the family's only live one and presenting the old one is a reuse that counts exactly it |
| `Redaction.RedactRecordInto` | src/logging/redact-fields.ts:41-51 | The walk with one mutable budget computes the redaction function, over all fields |
| `Redaction.RedactValue` | src/logging/redact-fields.ts:57-118 | The same for one value and what it leaves of the budget; what that function shows is `ShownIsAdmittedAndScrubbed` |
| `Redaction.RedactElements` | src/logging/redact-fields.ts:82-88 | The same for the elements of a list, left to right |
| `Redaction.RedactEach` | src/logging/redact-fields.ts:91-98 | The same for the members of a record, in order |
| `Redaction.Noninterference` | src/logging/redact-fields.ts:57-118 | Values of one shape whose admitted leaves look alike once scrubbed are written alike and cost alike, whatever their other leaves are and whatever lies below the depth cap |
| `Redaction.RecordsAlikeAreWrittenAlike` | src/logging/redact-fields.ts:41-51 | The same for whole records, despite the budget shared across fields |
| `Redaction.RecordIsBoundedAndFaithful` | src/logging/redact-fields.ts:41-118 | At most 512 values are written, and every part is cut off or mirrors the record: same keys and lengths, a leaf shown only on an admitted path, and a string only scrubbed |
| `Redaction.ShownIsAdmittedAndScrubbed` | src/logging/redact-fields.ts:57-118 | Whatever a written record shows anywhere is the leaf of the record at that very place, on an admitted path: a string only scrubbed, a number, flag or date as it is, and an instance never |
| `Redaction.BudgetIsExact` | src/logging/redact-fields.ts:64-65 | What is left of the budget is exactly what the values visited did not use |
| `Redaction.FittingIsShown` | src/logging/redact-fields.ts:57-118 | A value that fits the budget is written in full: an admitted string scrubbed, an admitted number, flag or date as it is, everything else redacted, and only what is too deep cut off |
| `Redaction.FirstFieldsAreShown` | src/logging/redact-fields.ts:41-51 | However large a record is, the fields that fit the budget before the rest are written in full |
| `Allowlist.Compile` | src/logging/redaction-allowlist.ts:102-134 | Keeps and rejects patterns in order, and the length-bucketed list admits exactly the paths some pattern given matches |
| `Allowlist.Buckets` | src/logging/redaction-allowlist.ts:120-126 | Each bucket holds exactly the patterns of its length |
| `Allowlist.BucketIsEnough` | src/logging/redaction-allowlist.ts:128-133 | Looking only in the bucket of a path's length decides as a scan of all patterns would |
| `Allowlist.Parse` | src/logging/field-path.ts:73-94 | The loops compute the pattern's segments, or nothing when any part is malformed |
| `Allowlist.FormatOfParse` | src/logging/field-path.ts:57-94 | A pattern that parses is the rendering of its segments |
| `Allowlist.ParseIffFormat` | src/logging/field-path.ts:57-94 | A text parses to a path if and only if the path is proper (names without dots or brackets, and array elements after them) and the text is its rendering with no blank at either end |
| `Allowlist.AdmittedIffFilled` | src/logging/field-path.ts:73-116 | A list of patterns admits a path if and only if some pattern is the rendering of a proper path that becomes this one when each `*` is filled in by a key; no prefix, and no array element for a `*` |
| `Allowlist.PermittedIffOneField` | src/logging/redaction-allowlist.ts:149-152 | A pattern is one an operator may add if and only if it parses and everything it admits is under one top-level field |
| `Allowlist.RenderingIsNotAnAddress` | src/logging/field-path.ts:38-49 | A key with a dot in it renders like a nested path and is a different address |
| `Backpressure.EpisodesAreExact` | src/realtime/backpressured-socket.ts:121-217 | Over every run, while lagging nothing is written but the frame that ends the episode; each lagged frame and each slow close carries exactly its episode's drops; nothing follows a close |
| `Backpressure.DropsAreAccounted` | src/realtime/backpressured-socket.ts:185-208 | Over every run, of an open or a closed connection, the drops announced or closed on and those still waiting to be announced add up to the total, which is the number of frames dropped |
| `Backpressure.BufferIsBounded` | src/realtime/backpressured-socket.ts:121-138 | Over every run the buffer stays within max(high + event, low + lagged + event) |
| `Backpressure.SendBounded` | src/realtime/backpressured-socket.ts:121-138 | A frame is written exactly when the connection is open and within the mark that applies; otherwise the buffer is untouched |
| `Backpressure.SlowCloseIff` | src/realtime/backpressured-socket.ts:149-198 | For every step exactly when it closes the connection as slow; and it then finds the buffer over the mark exactly when it is not a review that comes after the buffer drained |
| `Backpressure.RecoversIff` | src/realtime/backpressured-socket.ts:121-206 | For every step exactly when a connection that is behind recovers: drained to half the high mark, by a send, or by a review before the grace is spent; it then tells what was dropped and since when |
| `Backpressure.ClosedIsRecorded` | src/realtime/backpressured-socket.ts:121-217 | Over every run, a connection is closed exactly when the last thing that happened to it is the close |
| `Backpressure.OutcomeTells` | src/realtime/backpressured-socket.ts:121-198 | A send answers `sent` exactly when it wrote the frame, `dropped` exactly when it counted it and the connection is open, `closed` exactly when it is not |
| `Backpressure.DrainedAndClosed` | src/realtime/backpressured-socket.ts:140-158 | For any positive grace and any event that takes room, a run that falls behind, drains to nothing, and is closed as slow by the next review |
| `Backpressure.ClosedOnlyOverTheMarkIff` | src/realtime/backpressured-socket.ts:121-198 | Closing only while over the mark holds over all runs if and only if there is no grace at all or no event takes any room |
| `Backpressure.BackpressuredSocket.SendFrame` | src/realtime/backpressured-socket.ts:121-138 | One send, in place |
| `Backpressure.BackpressuredSocket.ReviewNow` | src/realtime/backpressured-socket.ts:149-158 | One review, in place |
| `Backpressure.BackpressuredSocket.DropFrame` | src/realtime/backpressured-socket.ts:185-198 | Counts the drop, and closes when the grace is spent |
| `Backpressure.BackpressuredSocket.RecoverNow` | src/realtime/backpressured-socket.ts:200-206 | Ends the episode with one lagged frame that carries its count |
| `Backpressure.BackpressuredSocket.CloseAsSlow` | src/realtime/backpressured-socket.ts:208-217 | Closes, with the count |
| `Backpressure.BackpressuredSocket.WriteFrame` | src/realtime/backpressured-socket.ts:219-225 | Adds the frame, and its size, to the buffer |
| `ScopeTrace.TraceToRequestScope` | src/di-scopes/scope-audit.service.ts:172-196 | Terminates on every graph; returns a chain through non-static providers to a request-scoped one, no longer than any other, or the empty list exactly when there is none |
| `ScopeTrace.Enqueue` | src/di-scopes/scope-audit.service.ts:186-192 | Queues each unseen, non-static dependency once |
| `ScopeTrace.PruningLosesNothing` | src/di-scopes/scope-audit.service.ts:186-190 | If a static tree reaches no request-scoped provider, every chain at all to one is a chain the search considers |
| `Rooms.ParsedRoomIsItsText` | src/realtime/rooms.ts:43-66 | A room name read off the wire is spelled exactly as the room is written |
| `Rooms.TextOfRoomParses` | src/realtime/rooms.ts:25-66 | Every room this build issues can be asked for by its text |
| `Rooms.RoomReadIff` | src/realtime/rooms.ts:43-66 | A text is read as a room if and only if it is the room's own text and an account's id is not empty, at most 128 code units, and free of blanks, colons and commas |
| `Common.SpaceIsListed` | src/realtime/rooms.ts:54-56 | What counts as blank, in room names, patterns and amounts alike, is exactly the white space and line terminators that sections 12.2 and 12.3 of ECMA-262 list |
| `Rooms.OwnRoomHearsWhatIsVisible` | src/realtime/rooms.ts:77-132 | An account in its own room and in none it may not join is reached by exactly the events it may see |
| `Rooms.WhoMayJoinAndSee` | src/realtime/rooms.ts:118-132 | An administrator may join every room and see every event; anyone else may join only their own room, and see exactly the events that go there; a connection starts in its own room |
| `Rooms.AdministratorsHearWhatTheyJoin` | src/realtime/rooms.ts:77-132 | An administrator is reached by an event exactly by being in one of the rooms it goes to |
| `Realtime.ConnectionRegistry.Add` | src/realtime/connection-registry.ts:55-58 | The connection is in its initial rooms, both ways |
| `Realtime.ConnectionRegistry.Remove` | src/realtime/connection-registry.ts:65-73 | The connection is in no room, either way; every other connection keeps its socket and its rooms |
| `Realtime.ConnectionRegistry.Join` | src/realtime/connection-registry.ts:76-81 | In one room more, both ways; says whether it was new |
| `Realtime.ConnectionRegistry.Leave` | src/realtime/connection-registry.ts:84-88 | In one room less, both ways, and an empty room is forgotten |
| `Realtime.ConnectionRegistry.Index` | src/realtime/connection-registry.ts:98-105 | One member more in a room, created if need be |
| `Realtime.ConnectionRegistry.Deindex` | src/realtime/connection-registry.ts:107-112 | One member less, and no empty room is kept |
| `RealtimeGateway.ParseRooms` | src/realtime/realtime.gateway.ts:404-466 | Accepts exactly the frames whose every name is good and that keep the connection within its limit; otherwise refuses for the first reason that applies |
| `RealtimeGateway.Gateway.HandleConnection` | src/realtime/realtime.gateway.ts:167-196 | Admits exactly while there is capacity: the socket then carries the connection, with its audience, in the account's own room, and nothing else changes; otherwise nothing does |
| `RealtimeGateway.Gateway.HandleDisconnect` | src/realtime/realtime.gateway.ts:218-219 | The socket is forgotten and its connection leaves every room; every other socket keeps its connection and its rooms |
| `RealtimeGateway.Gateway.HandleSubscribe` | src/realtime/realtime.gateway.ts:239-252 | All or nothing: an accepted frame joins every room named and reports the new ones, each once, in the order first named, and all that are held; a refused one changes nothing; the room limit and the joining rule still hold |
| `RealtimeGateway.Gateway.HandleUnsubscribe` | src/realtime/realtime.gateway.ts:255-267 | The same for leaving, which is always allowed |
| `RealtimeGateway.Gateway.JoinAll` | src/realtime/realtime.gateway.ts:249-249 | Joins each room and reports exactly those that were new, each once, in order |
| `RealtimeGateway.Gateway.LeaveAll` | src/realtime/realtime.gateway.ts:265-265 | Leaves each room and reports exactly those that were held, each once, in order |
| `RealtimeGateway.NewlyInIsExact` | src/realtime/realtime.gateway.ts:249-249 | The rooms reported as joined are those named and not held before, each once |
| `RealtimeGateway.NewlyOutIsExact` | src/realtime/realtime.gateway.ts:265-265 | The rooms reported as left are those named and held before, each once |
| `RealtimeGateway.Offer` | src/realtime/realtime.gateway.ts:355-360 | Considers each member of a room once over all rooms |
| `RealtimeGateway.Gateway.Broadcast` | src/realtime/realtime.gateway.ts:346-362 | Offers the event once to exactly the connections a scan of every open socket for interest and visibility would pick |
| `Money.Normalise` | src/payments/money.ts:41-71 | Accepts exactly whole, non-negative amounts up to 2^53-1 in a three-letter currency, and refuses each other kind with its own error |
| `Money.Match` | src/payments/money.ts:108-111 | Whatever it matches is digits, optionally a point and more digits |
| `Money.MatchFinds` | src/payments/money.ts:108-111 | Digits, optionally a point and more digits, are matched as exactly those parts |
| `Money.WrittenForm` | src/payments/money.ts:74-92 | What is written has no point for HUF, JPY and TWD and exactly two places for any other currency, and its digits are the amount |
| `Money.LettersAreACode` | src/payments/money.ts:25-25 | A currency code is any three upper-case letters |
| `Money.ReadingWhatWasWritten` | src/payments/money.ts:84-135 | Reading a written amount gives back the normalised amount, for every valid amount and both exponents |
| `Money.ReadingIsExact` | src/payments/money.ts:100-135 | A decimal string is accepted exactly when it fits the exponent and 2^53-1, and read as the number it denotes; each refusal has its own error |
| `Money.OnlyDecimalsAreRead` | src/payments/money.ts:108-111 | A string is refused as not a decimal number if and only if it is not one |
| `Money.TrimsBlanks` | src/payments/money.ts:108-108 | What is trimmed off is blank, at both ends, and all of it |
| `Money.WritingWhatWasRead` | src/payments/money.ts:84-135 | Writing what was read denotes the same number, leading zeros and short fractions included |

## Left out

- Saga step bodies of one saga excluding each other: a batch claim leases rows it reaches only later, so a lease can expire before its turn; only the row is protected, and only that is proved.
- Whether a compensated checkout has no shipment: a shipment made whose answer was lost exists although the saga turned round.
- Definitions that change while sagas run, beyond that a saga they no longer fit is given up on (`UnrunnableIsStuck`); under an unchanged one that never happens.
- The end of a disconnect, which empties the groups at once: here stopped members leave one at a time.
- A saga step that throws for a reason other than its own failure (the store failing in the middle of a drive), and the recovery service's timers and catch-all.
- Order rows changed from outside a checkout while it runs.
- Committed offsets that only grow, and each message handled once: a handler that finishes after a rebalance sets the commit back; neither is promised.
- Broker waking, idling and redelivery delays, so that a waiting message is eventually read; partition hashing; record timestamps; the Kafka adapter.
- What subscribers did on attempts that failed: only an attempt with no failed subscriber counts as accepted.
- Schema values with properties their schema does not declare: content models are open, so such a property may clash with one added later.
- JavaScript arrays with holes, and strings that are not well-formed UTF-16, in audit details and logged values; SHA-256 itself; the audit read endpoint and `count`.
- Lock waits that time out and deadlock detection in the database; `register`, `login` and the access token; the audit record of a detected reuse.
- In redaction, an own key named `__proto__`, which the original loses by assigning to it, and an invalid `Date`, on which the original throws (`src/logging/redact-fields.ts:94`, `116`). Cyclic JavaScript values, which the original cuts off with its `seen` set; the patterns of `scrubSecrets`; the default allowlist; where the operator's extra patterns come from.
- The unconditional farewell frame on shutdown, pings, pongs and the heartbeat sweep.
- Handshake authentication and the frames written to clients other than what they report.
- Provider names in a traced chain: the chain is of providers; the rest of the scope audit lists and sorts them.
- Payment gateways, inventory and shipping beyond the idempotency stated; refunds in part.
- The outbox relay, the data-key cache, encryption, key management, tenancy, caching, rate limiting, HTTP controllers, configuration, telemetry and module wiring.
- Consumer.DomainEventConsumer.Dispatch: the effects of one handler call are one step, at its end; what happens in the broker between its attempts is covered by the state machine, not by this method.
- Compatibility.Check: schemas arrive already read into the profile's node kinds, so of `assertInProfile` only the root, distinct keys, the required properties, non-empty types and non-empty enums are checked; the keyword lists, document keywords, `additionalProperties` and tuple `items` are not.
- SchemaWitness.ReportedIffUnreadable: completeness is not claimed where a `format` the old schema names elsewhere is added or put in place of another; `SharedFormatAndReported` is a case in which it fails.
- SagaRows.SagaStore.ClaimDue: the claimed rows come back in no particular order, because an `UPDATE … RETURNING` promises none.
- AuthService.Refresh: claim and issue are one method here and two transactions in the original, so the outcome of a family pruned away between them does not arise in it; the runs of `RefreshTokens` have that interleaving.
- RefreshLocks.CommitIsConsume: counting a reused family's unspent tokens and revoking it are one step, made while both locks are held.
- Error messages and log lines are cut by characters, where the original counts UTF-16 code units; what is cut is not looked at.
- RealtimeGateway.Gateway.HandleSubscribe: the list of all rooms held is a set, without the order they were joined in.
- RealtimeGateway.Gateway.HandleUnsubscribe: likewise.
