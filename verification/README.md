# Verified model of messagekit's delivery core

messagekit moves domain events from an outbox table through Kafka to RabbitMQ and on to idempotent
consumers. This project models the parts of it whose behaviour depends on interleaving and failure, and
proves what they guarantee. `dafny verify dfyconfig.toml` checks everything.

## What is modelled

**The circuit breaker** (`CircuitBreaker.dfy`, `BreakerRuns.dfy`). The class `CircuitBreaker` updates its
fields as the code does; each method is tied to a function on the value of those fields. `BreakerRuns`
takes the stretches of code between two suspension points as the steps of a machine with any number of
calls in flight, an arbitrary monotone clock and outcomes chosen by an adversary.

**The delivery pipeline** (`Messages.dfy`, `Routing.dfy`, `Pipeline.dfy`). One machine holds the outbox
sessions and rows, Kafka's partition logs, positions and committed offsets, the claims table, RabbitMQ's
log, the committed business effects, and every delivery attempt with the point it has reached. Publishing,
committing and acking may succeed, fail, or take effect and still raise. Attempts may be cancelled or crash
anywhere. A step that is not enabled changes nothing, so every list of steps is a run. The theorems of
`PipelineSafety.dfy` and `ConsumerIsolation.dfy` quantify over all of them, those of `PartitionOrder.dfy`
and `PartitionRefinement.dfy` over all in which Kafka delivers in order. `OutboxSessions.dfy` says how rows
come into the outbox. `OrderlySegments.dfy`, `OrderlyProgress.dfy`, `OrderlyLimits.dfy`,
`OvertakingRuns.dfy`, `RefusedDeliveries.dfy` and `StuckEvents.dfy` construct runs: progress from every
orderly state to a limit that the logs determine, and the runs that make the conditions exact.

**The handlers** (`Handlers.dfy`). `process_kafka_message`, `handle_message`, `claim` and `consume_event` as
methods that change fields in order, with exceptions as results. Each is shown to be a run of the machine,
so the theorems about runs apply to what the code does.

**The bridge behind its breaker** (`BridgeBehindBreaker.dfy`). Breaker machine and pipeline side by side:
deliveries and Kafka publishes are calls through one shared breaker; `DeliveryRecords.dfy` says what it lets
through and what it records.

**The schema registry** (`Versions.dfy`, `SchemaRegistry.dfy`, `SchemaEvolution.dfy`), **the event bus**
(`EventBus.dfy`) and **the outbox table** (`Outbox.dfy`, `OutboxRetries.dfy`, `OutboxHistory.dfy`).

## What came out

These are places where the code does less than its documentation, or a reader of it, might expect. Each is
proved with a concrete run or input, next to the exact condition under which the expectation holds or fails.

- A half-open breaker does not recover through a function that calls the same breaker and lets its exceptions
  through: the inner call is refused and the refusal is recorded as the probe's failure
  (`ReentrantProbeReopens`). The probes that recover it are those that return although every call they
  make is refused (`ProbeRecoversExactly`). Under concurrent callers only a success of some other call in the
  meantime helps (`AdmittedDuringProbe`).
- A delivery the Kafka-side breaker refuses is neither acked nor nacked; if the consumer goes on, the next
  ack commits past it (`RefusedDeliveryIsLost`), and past all that were refused in a row. Whether that can
  lose an event is settled before it happens: it cannot exactly if each refused message carries no identifier,
  is claimed already, or carries the identifier of the message delivered next (`RefusalIsHarmlessExactly`).
  Otherwise Kafka must be restarted from its committed offset first, which is what `Orderly` asks for.
  `BridgeIsFaithful` says when no delivery is refused at all.
- Where two partitions hold the same event, the stream from one of them can have a gap
  (`OvertakableLeavesGap`). Every orderly run keeps a partition's stream in order if no other partition holds
  one of its events ahead of an event that comes later in it (`ForwardingRefinesPartition`, for all logs).
  This is exact, with the logs taken up to the first message that cannot be handled, if all copies of an
  event are alike in having a routing key or not (`ForwardingRefinesExactly`).
- Events in the library's own camelCase format have no routing key under the default `{event_type}`
  template (`OwnFormatUnroutable`). An identifier none of whose messages has a routing key is never claimed,
  published or acked (`UnroutableEventIsStuck`). With one that has, some run still forwards it from every
  state (`ForwardableExactly`), but not always one in which Kafka delivers in order: there a stuck message
  blocks its partition (`StuckMessageBlocks`). What orderly runs can still claim and commit is determined by
  the logs, not by what has failed so far (`OutcomeIsDetermined`, `ClaimableInOrderExactly`).
- The bridge prefers `event_id` and keeps white space, the consumers prefer `eventId` and strip it. `IdsAgree`
  gives the exact condition under which both read the same identifier; `IdsCanCollide` gives two events the
  bridge tells apart and a consumer does not.
- Checking a schema against the latest version only lets a property change its type by way of a version
  that lacks it (`GapChangesType`).
- With two versions of equal tuples (`1.0` and `1.00`), `get_latest` depends on the order of registration
  (`LatestOrderIndependentExactly`); `check_version_compatibility` ignores the third component,
  even one that is no number (`ValidatorComparesTwoParts`).
- Overlapping resets lose counts and overlapping retries retry one failure twice (`OverlappingRetries`). The
  count is right exactly when no reset is written between another one's read and its write
  (`AttemptCountExactly`). Two retries retry the same failure exactly when the second has passed its check
  before the first writes and no failure comes between their writes (`RetriedTwiceExactly`); without that,
  retries never outnumber failures (`QuietOverlapIsNeeded`).
- A `failure_threshold` below one acts as one.

## Premises

- No consumer is named `kafka_rabbitmq_bridge`, the name under which the bridge claims. Consumer names have
  been through `validate_consumer_name`.
- The claims table has a unique key on consumer and identifier; an insert that meets another transaction's
  uncommitted row waits for it; a committed row makes it insert nothing.
- For the order of forwarding (`OrderlyRun`): Kafka hands over one message of a partition at a time, the one
  at its position, and after a delivery it heard nothing about, only after a restart of the partition.

## Model

| member | source | states |
|---|---|---|
| CircuitBreakers.CircuitBreaker.constructor | src/messagekit/core/contracts/circuit_breaker.py:26-33 | a new breaker is closed, without failures, lock free |
| CircuitBreakers.CircuitBreaker.ReadState | src/messagekit/core/contracts/circuit_breaker.py:35-42 | reading the state moves an open breaker to half-open once the timeout has elapsed, and changes nothing else |
| CircuitBreakers.CircuitBreaker.RecordSuccess | src/messagekit/core/contracts/circuit_breaker.py:73-76 | the whole new state after a recorded success, from any state, so a late success closes an open breaker |
| CircuitBreakers.CircuitBreaker.RecordFailure | src/messagekit/core/contracts/circuit_breaker.py:78-83 | the whole new state after a recorded failure: count, timer, and opening at the threshold |
| CircuitBreakers.CircuitBreaker.Admit | src/messagekit/core/contracts/circuit_breaker.py:44-57 | refused, let through, or let through as the half-open probe with the lock taken, for any two clock readings |
| CircuitBreakers.CircuitBreaker.Call | src/messagekit/core/contracts/circuit_breaker.py:44-57 | an uninterrupted call, with whatever its function calls, ends in the state, outcome and number of admitted calls of `Play` |
| CircuitBreakers.CircuitBreaker.ExecuteCall | src/messagekit/core/contracts/circuit_breaker.py:59-71 | success and `Exception` are recorded, cancellation is not, and the exception goes on |
| CircuitBreakers.CircuitBreaker.RunFunction | src/messagekit/core/contracts/circuit_breaker.py:62-64 | the function may call the breaker any number of times, at any depth, and go on in one way after a return and in another after an exception |
| CircuitBreakers.CircuitBreakerMiddleware.constructor | src/messagekit/infrastructure/resilience/circuit_breaker_middleware.py:16-18 | a middleware starts with a breaker of its own |
| CircuitBreakers.CircuitBreakerMiddleware.Sharing | src/messagekit/infrastructure/pubsub/broker_config/_factory_helpers.py:29-42 | middlewares made by the factory share one breaker |
| CircuitBreakers.CircuitBreakerMiddleware.ConsumeScope | src/messagekit/infrastructure/resilience/circuit_breaker_middleware.py:20-22 | consuming drives the shared breaker as one call |
| CircuitBreakers.CircuitBreakerMiddleware.PublishScope | src/messagekit/infrastructure/resilience/circuit_breaker_middleware.py:24-30 | publishing drives the same breaker as one call |
| CircuitBreakers.CallEndsExactly | src/messagekit/core/contracts/circuit_breaker.py:44-71 | an open breaker, or a half-open one whose lock is held, raises at once without running the function; otherwise the call ends as the function does, given how each call it makes ends |
| CircuitBreakers.PropagationCountsLevels | src/messagekit/core/contracts/circuit_breaker.py:59-83 | an exception that crosses d admitted levels, whether a function or a refusal raised it, raises the count it was thrown at by d |
| CircuitBreakers.LevelsAdmitted | src/messagekit/core/contracts/circuit_breaker.py:44-57 | a closed breaker admits the first call at every depth, and all of a nest that makes no others; a half-open one the outermost if its lock is free, whatever that calls; an open one none |
| CircuitBreakers.ProbeRecoversExactly | src/messagekit/core/contracts/circuit_breaker.py:50-76 | a half-open breaker is closed by a call exactly if its lock is free and the function returns although every call it makes is refused |
| CircuitBreakers.ReentrantProbeReopens | src/messagekit/core/contracts/circuit_breaker.py:50-71 | a probe that calls its own breaker and ends by raising if that is refused always fails and reopens the breaker, whatever the inner call would do |
| BreakerRuns.PlayIsRun | src/messagekit/core/contracts/circuit_breaker.py:44-83 | the uninterrupted call is one of the machine's runs; what its caller is told is the last event recorded, and its levels are the calls admitted |
| BreakerRuns.StepKeepsInv | src/messagekit/core/contracts/circuit_breaker.py:35-83 | every step keeps: count and timer are those of the history, closed exactly below the threshold, half-open only after the timeout, lock held exactly by one probe |
| BreakerRuns.ObservedStateIsHistory | src/messagekit/core/contracts/circuit_breaker.py:35-83 | in every interleaving the observed state is a function of the completions recorded and the time: closed below the threshold of trailing failures, else open until `reset_timeout` after the last failure, else half-open |
| BreakerRuns.SingleProbe | src/messagekit/core/contracts/circuit_breaker.py:50-57 | in every reachable state the half-open lock is held exactly if one probe is in flight, and there are never two |
| BreakerRuns.RefusedOnlyWithCause | src/messagekit/core/contracts/circuit_breaker.py:44-57 | a caller is refused exactly if the history makes the breaker open, or half-open with a probe in flight, so the breaker is never stuck however a probe ends |
| BreakerRuns.RefusalRecordsNothing | src/messagekit/core/contracts/circuit_breaker.py:46-53 | a refused call leaves count, timer and lock alone |
| BreakerRuns.AdmittedDuringProbe | src/messagekit/core/contracts/circuit_breaker.py:44-83 | a call admitted while a probe is in flight, a nested one included, owes it to a success some other call recorded after the probe was let in |
| BreakerRuns.OpenAdmissionsSparse | src/messagekit/core/contracts/circuit_breaker.py:38-57 | from an open breaker, admissions stay `reset_timeout` apart until a success or a cancelled probe, even while earlier calls keep failing |
| BreakerRuns.OpenAdmissionsBounded | src/messagekit/core/contracts/circuit_breaker.py:78-83 | so a window of length T holds at most floor(T / reset_timeout) + 1 admissions |
| Messages.StripCutsSpace | src/messagekit/infrastructure/pubsub/consumer_base/consumer_validators.py:26-30 | stripping takes away white space only, from the ends only |
| Messages.BlankNamesRejected | src/messagekit/infrastructure/pubsub/consumer_base/consumer_validators.py:12-30 | a consumer name is rejected exactly if it is blank, is otherwise freed of the white space around it, and then stays as it is |
| Messages.GetReadsLast | src/messagekit/infrastructure/pubsub/bridge/consumer.py:36 | the last field with a key is read, at whatever position it stands |
| Messages.BridgeIdExactly | src/messagekit/infrastructure/pubsub/bridge/consumer.py:36-44 | the bridge takes what stands under `event_id`, or, if that is missing or false, under `eventId`; a string that is not blank as it stands, anything else that is true is rejected |
| Messages.EventIsRead | src/messagekit/infrastructure/pubsub/bridge/consumer.py:36-44 | so a message with such a string under the key that counts, among whatever other fields, has it as its identifier |
| Messages.ConsumerIdExactly | src/messagekit/infrastructure/pubsub/consumer_base/consumer_validators.py:50-58 | a consumer takes `eventId` first, else whatever stands under `event_id` unless null, as text without the white space around it |
| Messages.IdsAgree | src/messagekit/infrastructure/pubsub/consumer_base/consumer_validators.py:33-58 | exactly when bridge and consumer read the same identifier out of a message |
| Messages.IdsCanCollide | src/messagekit/infrastructure/pubsub/bridge/consumer.py:36-44 | two messages with different identifiers for the bridge and one identifier for a consumer |
| Routing.RoutingKeyDefined | src/messagekit/infrastructure/pubsub/bridge/routing_key_builder.py:18-20 | the routing key exists exactly if every placeholder is a field of the event, dots read as underscores |
| Routing.PlaceholderValue | src/messagekit/infrastructure/pubsub/bridge/routing_key_builder.py:18-20 | of fields whose keys become equal the last one fills the placeholder |
| Routing.RoutingKeyText | src/messagekit/infrastructure/pubsub/bridge/routing_key_builder.py:18-20 | the key reads as the texts of the segments in order: a literal as it is, a placeholder as the last field of its name |
| Routing.CamelCaseUnroutable | src/messagekit/main/_initialization/bridge_setup/config.py:13-18 | an event with keys free of underscores and dots has no routing key under the default template |
| Routing.OwnFormatUnroutable | src/messagekit/core/contracts/base_event.py:41-51 | so no event that `to_message` writes has one, with whatever camelCase fields a subclass adds |
| OutboxSessions.SessionEndsExactly | src/messagekit/infrastructure/outbox/outbox_crud/operations/crud_operations/add.py:30-35 | in every run a session's commit turns all events added to it into rows with their payloads, unless an identifier was added twice or is taken; then, and on rollback, the table stays as it was |
| OutboxSessions.RowsAreStored | src/messagekit/infrastructure/outbox/outbox_crud/operations/crud_operations/add.py:30-40 | in every run each row goes back to a step that added it by itself, or to the commit of the open session it was added to, with that payload |
| PipelineInvariants.StepKeepsSane | src/messagekit/infrastructure/persistence/processed_message_store/processed_message_store.py:65-89 | every step keeps: no two attempts hold or committed the same claim, each committed claim has its committer, publications and effects belong to attempts that made them, Kafka holds only committed rows |
| PipelineInvariants.AdvanceIsLegal | src/messagekit/main/_initialization/bridge_setup/message_processor.py:32-65 | a move publishes or commits only under a claim its attempt holds, and takes no claim that is held |
| PipelineSafety.PublishConservation | src/messagekit/main/_initialization/bridge_setup/message_processor.py:32-42 | in every interleaving, publications of an event = committed claim + attempts that published and gave up + at most one still to commit; a duplicate needs an attempt that ended between publish and commit |
| PipelineSafety.AckedIsNeverLost | src/messagekit/main/_initialization/bridge_setup/message_processor.py:33-42 | whenever Kafka took an ack, whether or not the bridge learned of it, the message's identifier, if any, is claimed, and the committing attempt published first, then committed, before the ack |
| PipelineSafety.EndedAckedWasAcked | src/messagekit/main/_initialization/bridge_setup/message_processor.py:42-42 | every attempt that ended with an ack is among those |
| PipelineSafety.ExactlyOnceEffects | src/messagekit/infrastructure/pubsub/consumer_base/consumer_consume.py:66-74 | however often an event is duplicated, a consumer's committed effects for an identifier number one if its claim is committed and none if not |
| PipelineSafety.EffectsStemFromRows | src/messagekit/infrastructure/outbox/outbox_crud/operations/crud_operations/add.py:30-40 | every committed effect goes back to a RabbitMQ entry, a Kafka offset and an outbox row that was added by itself or by a session that committed; if identifiers are read alike, to the row of that identifier |
| PipelineSafety.UnroutableIsInert | src/messagekit/infrastructure/pubsub/bridge/consumer.py:42-50 | an attempt on a message without routing key publishes and commits nothing, and Kafka takes its ack only if another message committed its identifier |
| PipelineSafety.UnroutableEventIsStuck | src/messagekit/infrastructure/pubsub/bridge/consumer.py:42-50 | if no message with the identifier has a routing key, it is never claimed, published or acked |
| ConsumerIsolation.ConsumersAreIndependent | src/messagekit/infrastructure/persistence/orm_models/processed_message_orm.py:31-32 | take all moves of the other consumers out of any run from the start: outbox, Kafka, RabbitMQ, the bridge's claims and attempts, and this consumer's claims, attempts and effects come out the same |
| ConsumerIsolation.OwnMove | src/messagekit/infrastructure/persistence/processed_message_store/processed_message_store.py:65-89 | a move of a consumer or of the bridge depends on nothing another consumer did |
| ConsumerIsolation.OtherMove | src/messagekit/infrastructure/persistence/processed_message_store/processed_message_store.py:65-89 | another consumer's move leaves all that concerns the consumer or the bridge as it was |
| PartitionOrder.StepKeepsInOrder | src/messagekit/main/_initialization/bridge_setup/message_processor.py:32-65 | every orderly step keeps the order of forwarding and the meaning of positions and committed offsets, in every partition |
| PartitionOrder.ForwardingOrder | src/messagekit/infrastructure/pubsub/bridge/consumer.py:36-50 | in every orderly run, a partition's stream in RabbitMQ without repeats is its first occurrences up to some offset, less only identifiers claimed through other partitions |
| PartitionRefinement.ShiftKeepsEntryOrder | src/messagekit/infrastructure/pubsub/bridge/consumer.py:36-50 | every orderly step keeps: what stands below an entry's offset has no identifier or is claimed, and no later entry carries it |
| PartitionRefinement.ForwardingRefinesPartition | src/messagekit/main/_initialization/bridge_setup/message_processor.py:32-65 | unless the logs let an event be overtaken from another partition, the stream is a prefix of the partition's first occurrences, through all failures, crashes and restarts |
| PartitionRefinement.UnsharedIsNotOvertakable | src/messagekit/core/contracts/base_event.py:176-178 | in a partition whose identifiers occur in no other, nothing can be overtaken |
| PartitionRefinement.CommittedOffsetIsSettled | src/messagekit/main/_initialization/bridge_setup/message_processor.py:42-65 | everything below a committed offset has no identifier, or is claimed and published |
| PartitionRefinement.FullyConsumedIsForwarded | src/messagekit/main/_initialization/bridge_setup/message_processor.py:32-65 | each event of a partition committed to its end has been forwarded from a partition that holds it, and all in order from here if no other partition holds any |
| OvertakingRuns.OvertakableLeavesGap | src/messagekit/infrastructure/pubsub/bridge/consumer.py:42-46 | for any logs that let an event be overtaken ahead of the messages that cannot be handled, and any outbox they can be drawn from, an orderly run without failures whose stream has a gap |
| OvertakingRuns.SharedEventIsOvertakable | src/messagekit/infrastructure/pubsub/bridge/consumer.py:42-46 | one event in two partitions with another behind it is enough, if both can be forwarded |
| OvertakingRuns.SentWithinLimit | src/messagekit/main/_initialization/bridge_setup/message_processor.py:44-65 | in every orderly run, whatever the logs, all entries come from ahead of the first message of their partition that cannot be handled under claims at which the bridge gets no further |
| OvertakingRuns.ForwardingRefinesExactly | src/messagekit/main/_initialization/bridge_setup/message_processor.py:32-65 | if copies of an event can be forwarded all or none, all orderly runs that produce given logs keep a partition's stream in order if and only if the logs, each up to the first message that cannot be handled, let none of its events be overtaken |
| OrderlySegments.HandleNext | src/messagekit/main/_initialization/bridge_setup/message_processor.py:32-42 | without failures the next message is claimed, published unless claimed before, committed and acked, and nothing else changes |
| OrderlyProgress.HandleUpTo | src/messagekit/main/_initialization/bridge_setup/message_processor.py:32-42 | a stretch of messages so handled leaves exactly its identifiers claimed, and those not claimed before published from here |
| OrderlyProgress.EveryPartitionCanAdvance | src/messagekit/main/_initialization/bridge_setup/message_processor.py:32-65 | from every state an orderly run reaches, some orderly continuation commits each partition past all messages ahead of the first one that cannot be handled, with all their events claimed |
| OrderlyProgress.EveryPartitionCanFinish | src/messagekit/main/_initialization/bridge_setup/message_processor.py:32-65 | from every state an orderly run reaches, with handleable messages, some orderly continuation commits every partition to its end with every event claimed |
| OrderlyLimits.NothingPassesTheLimit | src/messagekit/main/_initialization/bridge_setup/message_processor.py:32-65 | if all that could be handled next under some set of claims is in that set, no orderly run claims anything outside it or commits a partition past the first message that cannot be handled under it |
| OrderlyLimits.OutcomeIsDetermined | src/messagekit/main/_initialization/bridge_setup/message_processor.py:32-65 | from every state an orderly run reaches, whatever failed, crashed or restarted, some orderly continuation claims exactly the least such set, which the logs alone determine, and commits every partition exactly up to the first message that cannot be handled even then |
| OrderlyLimits.ClaimableInOrderExactly | src/messagekit/infrastructure/pubsub/bridge/consumer.py:42-50 | in every orderly run, some orderly continuation without new captures claims an identifier if and only if it is in the least such set |
| RefusedDeliveries.AckedPastIsSettledExactly | src/messagekit/main/_initialization/bridge_setup/message_processor.py:42-42 | whatever happens after any number of refusals, the ack of the message delivered next commits past all those refused, and everything below the offset is settled if and only if they all are |
| RefusedDeliveries.RefusalIsHarmlessExactly | src/messagekit/core/contracts/circuit_breaker.py:46-53 | read off before any number of refusals, as an open breaker makes them: every continuation in which the message delivered next gets acked leaves everything below the committed offset settled if and only if each refused message has no identifier, is claimed already, or shares the identifier of the one delivered |
| StuckEvents.ForwardableExactly | src/messagekit/infrastructure/pubsub/bridge/consumer.py:42-50 | in every run, some continuation without new captures, orderly or not, claims an identifier if and only if some message that carries it has a routing key |
| StuckEvents.StuckMessageBlocks | src/messagekit/main/_initialization/bridge_setup/message_processor.py:44-65 | in every orderly run nothing behind a message that is rejected, or whose identifier has no message with a routing key, is committed, in hand or published |
| RefusedDeliveries.RefusedDeliveryIsLost | src/messagekit/core/contracts/circuit_breaker.py:46-53 | for any two forwardable events with rows of their own, a run in which the first is refused and lost and the second forwarded |
| Handlers.Runtime.ClaimEvent | src/messagekit/infrastructure/persistence/processed_message_store/processed_message_store.py:65-89 | the insert reports whether the key was new, holds it uncommitted if so, and is a step of the machine |
| Handlers.Runtime.PublishToExchange | src/messagekit/infrastructure/pubsub/bridge/consumer.py:48-50 | publishing appends to RabbitMQ at once, even if it then raises |
| Handlers.Runtime.HandleMessage | src/messagekit/infrastructure/pubsub/bridge/consumer.py:30-50 | exactly when handling succeeds, what it raises otherwise, which claim it leaves open and what it has published, for every fault |
| Handlers.Runtime.CommitTransaction | src/messagekit/main/_initialization/bridge_setup/message_processor.py:33-40 | leaving the transaction makes the open claim durable unless the commit fails |
| Handlers.Runtime.AckMessage | src/messagekit/main/_initialization/bridge_setup/message_processor.py:42-42 | an ack moves the committed offset past the message and never backwards |
| Handlers.Runtime.NackMessage | src/messagekit/main/_initialization/bridge_setup/message_processor.py:44-65 | a nack puts the position back on the message, even if it then raises, unless it fails |
| Handlers.Runtime.TryProcess | src/messagekit/main/_initialization/bridge_setup/message_processor.py:32-42 | when the protected part raises, and the claims, publications and offsets it leaves |
| Handlers.Runtime.ProcessKafkaMessage | src/messagekit/main/_initialization/bridge_setup/message_processor.py:16-65 | a delivery is a run of the machine whose last move gives the reply; it acks exactly if handling, commit and ack report success, raises exactly if then nack raises, and leaves these claims, publications, offsets and positions |
| Handlers.Runtime.ConsumeEvent | src/messagekit/infrastructure/pubsub/consumer_base/consumer_consume.py:66-74 | false for a duplicate without running the handler, true with claim and effect written in one session, else an exception |
| Handlers.Runtime.CommitConsumer | src/messagekit/infrastructure/pubsub/consumer_base/consumer_consume.py:35-47 | the caller's commit makes claim and effect durable together or neither |
| Handlers.Runtime.ConsumeDelivery | src/messagekit/infrastructure/pubsub/consumer_base/consumer_consume.py:35-47 | a delivery to a consumer under the documented commit and rollback is a run of the machine, with one claim and one effect exactly for a new event handled and committed |
| BridgeBehindBreaker.BreakerStaysClosed | src/messagekit/main/_initialization/bridge_setup/message_processor.py:44-65 | without undecodable deliveries, raising nacks and failing Kafka publishes the shared breaker stays in its initial state in every run and refuses nobody |
| BridgeBehindBreaker.NothingRefused | src/messagekit/infrastructure/resilience/circuit_breaker_middleware.py:20-22 | then every delivery that arrives reaches the handler |
| BridgeBehindBreaker.TraceRuns | src/messagekit/infrastructure/resilience/circuit_breaker_middleware.py:20-30 | the pipeline inside a joint run is a run of the pipeline machine, refused deliveries included |
| BridgeBehindBreaker.BridgeIsFaithful | src/messagekit/main/_initialization/bridge_setup/message_processor.py:32-65 | breaker, bridge and Kafka together: nothing refused and committed offsets settled in all logs; a stream refines its partition unless the logs let an event of it be overtaken; full consumption means full forwarding |
| DeliveryRecords.SysTraceRuns | src/messagekit/infrastructure/resilience/circuit_breaker_middleware.py:20-30 | the breaker inside a joint run is a run of the breaker machine |
| DeliveryRecords.ArrivalRefusedExactly | src/messagekit/infrastructure/resilience/circuit_breaker_middleware.py:20-22 | in every joint run an arriving message is passed over exactly if the breaker's history makes it open, or half-open with a probe in flight; otherwise it reaches the handler |
| DeliveryRecords.GarbledIsFailure | src/messagekit/infrastructure/resilience/circuit_breaker_middleware.py:20-22 | a delivery that does not decode never reaches the handler, and counts as a failure if it was let through |
| DeliveryRecords.DeliveryRecordedExactly | src/messagekit/main/_initialization/bridge_setup/message_processor.py:44-65 | in every joint run the breaker records of a delivery its end and nothing else: success after an ack or a nack, failure if nack raised, neither if cancelled |
| Versions.TrichotomyOfTuples | src/messagekit/core/contracts/schema_registry.py:44-46 | of two version tuples exactly one is lower or they are equal |
| Versions.LessTransitive | src/messagekit/core/contracts/schema_registry.py:44-46 | the order on version tuples is transitive |
| Versions.LessIsLexicographic | src/messagekit/core/contracts/schema_registry.py:44-46 | the order is that of the first component in which two tuples differ, a tuple before its extensions |
| Versions.ParseDigitsExactly | src/messagekit/core/contracts/schema_registry.py:45 | which digit strings are read, and as which number, underscores between digits included |
| Versions.ParseIntExactly | src/messagekit/core/contracts/schema_registry.py:45 | `int` reads such a literal with or without sign, white space around it aside, and nothing else |
| Versions.IntegerIsRead | src/messagekit/core/contracts/schema_registry.py:45 | every integer is read back from its decimal form |
| Versions.SplitJoin | src/messagekit/core/contracts/schema_registry.py:45 | parts without dots, joined by dots, are split into those parts |
| Versions.RenderedIsRead | src/messagekit/core/contracts/schema_registry.py:44-46 | the version that a tuple is written as is read as that tuple |
| Versions.ValidatorAgreesWithOrder | src/messagekit/core/contracts/contract_validator.py:22-43 | on two-component versions the validator accepts exactly what the registry's order does not place higher, and raises ValueError exactly where the registry would |
| Versions.ValidatorComparesTwoParts | src/messagekit/core/contracts/contract_validator.py:22-43 | on all versions it is that order cut down to two components, missing ones read as zero, with the right complaint; the registry reads a version exactly if the validator does and all later components are numbers |
| Versions.ValidatorReadsNumbers | src/messagekit/core/contracts/contract_validator.py:22-43 | an event written with some numbers is accepted exactly if its first two are not above the consumer's |
| SchemaRegistry.StoreIsUpdate | src/messagekit/core/contracts/schema_registry.py:23-27 | registering replaces the version's schema, touches no other version and keeps versions distinct |
| SchemaRegistry.StoreKeepsPlaces | src/messagekit/core/contracts/schema_registry.py:23-27 | an existing version keeps its place, a new one comes last |
| SchemaRegistry.LatestIndex | src/messagekit/core/contracts/schema_registry.py:44-46 | the maximum exists exactly if all versions parse, none is higher, and it is the first of equals |
| SchemaRegistry.LatestIsUnique | src/messagekit/core/contracts/schema_registry.py:44-46 | only one entry can be the latest |
| SchemaRegistry.LatestByNumbers | src/messagekit/core/contracts/schema_registry.py:44-46 | of versions written as tuples, the latest is the first of those with the highest numbers |
| SchemaRegistry.Lookup | src/messagekit/core/contracts/schema_registry.py:29-37 | finds a schema exactly if the version is registered, and one registered under it |
| SchemaRegistry.MayFollowExactly | src/messagekit/core/contracts/schema_registry.py:54-70 | the rules field by field: required fields stay required and declared, newly required ones were declared, types stay where both versions give one |
| SchemaRegistry.SchemaRegistry.Register | src/messagekit/core/contracts/schema_registry.py:23-27 | only the event type's table changes, by storing the version |
| SchemaRegistry.SchemaRegistry.Get | src/messagekit/core/contracts/schema_registry.py:29-37 | succeeds exactly for a registered type and version, with the right error otherwise |
| SchemaRegistry.SchemaRegistry.GetLatest | src/messagekit/core/contracts/schema_registry.py:39-46 | returns the entry with the highest tuple, with the error for unknown types and unparsable versions |
| SchemaRegistry.SchemaRegistry.CheckCompatibility | src/messagekit/core/contracts/schema_registry.py:48-70 | passes exactly if the type is new or the schema may follow the latest one (required fields kept, none renamed, no type changed); otherwise the error names the first rule broken |
| SchemaRegistry.SchemaRegistry.Judge | src/messagekit/core/contracts/schema_registry.py:54-70 | for any two schemas, success exactly if the second may follow the first, else the first broken rule: a required field removed, renamed, or a type changed |
| SchemaEvolution.NarrowerMeansSubset | src/messagekit/core/contracts/schema_registry.py:65-70 | one declared type admits only values of another exactly if they are equal or integer and number |
| SchemaEvolution.ReadableExactly | src/messagekit/core/contracts/schema_registry.py:54-70 | for any two schemas, exactly when all payloads of the newer are valid under the older |
| SchemaEvolution.ReleasedExactly | src/messagekit/core/contracts/schema_registry.py:48-53 | in an ascending chain, passing the check against the latest means following the predecessor |
| SchemaEvolution.ReleasesFormTable | src/messagekit/core/contracts/schema_registry.py:23-27 | registering distinct versions in turn gives the table in that order |
| SchemaEvolution.RequiredOnlyGrows | src/messagekit/core/contracts/schema_registry.py:56-60 | over a whole chain required sets only grow |
| SchemaEvolution.RequiredStaysDeclared | src/messagekit/core/contracts/schema_registry.py:61-64 | a field once required is declared in every later version |
| SchemaEvolution.RequiredKeepsType | src/messagekit/core/contracts/schema_registry.py:65-70 | and its type never changes again |
| SchemaEvolution.ChainReadableExactly | src/messagekit/core/contracts/schema_registry.py:48-70 | an earlier version of a chain reads a later one exactly if its typed properties are still declared with types no wider |
| SchemaEvolution.UndroppedIsReadable | src/messagekit/core/contracts/schema_registry.py:48-70 | if no release drops a property and all are typed, every version reads all later ones |
| SchemaEvolution.ReleasesEvolve | src/messagekit/core/contracts/schema_registry.py:23-70 | all of this for releases as the registry makes them: ascending, each checked against the latest before it is registered |
| SchemaEvolution.GapChangesType | src/messagekit/core/contracts/schema_registry.py:48-70 | three checked releases whose third is not readable by the first, and could not have followed it |
| SchemaEvolution.GapIsReleased | src/messagekit/core/contracts/schema_registry.py:44-46 | such releases exist, under any three ascending one-digit versions |
| SchemaEvolution.LatestIgnoresOrder | src/messagekit/core/contracts/schema_registry.py:39-46 | with one highest tuple, every order of registration yields the same latest version |
| SchemaEvolution.OrderDecidesTies | src/messagekit/core/contracts/schema_registry.py:39-46 | with two entries of highest tuple, some order yields another |
| SchemaEvolution.LatestOrderIndependentExactly | src/messagekit/core/contracts/schema_registry.py:39-46 | so the latest version is independent of the order exactly if one entry alone has the highest tuple |
| EventBus.EventBus.Register | src/messagekit/core/contracts/bus/event_bus.py:47-57 | the handler is appended to its event's list and nothing else changes |
| EventBus.EventBus.Dispatch | src/messagekit/core/contracts/bus/event_bus.py:73-84 | handlers, traces and outcome after a dispatch, whatever the handlers, at each invocation anew, register, dispatch or raise |
| EventBus.EventBus.InvokeAll | src/messagekit/core/contracts/bus/backends.py:40-49 | the loop runs the snapshot in order and stops at the first failure |
| EventBus.EventBus.InvokeHandler | src/messagekit/core/contracts/bus/dispatch_executor.py:51-66 | a trace before and a matching one after each handler, the exception passed on |
| EventBus.DispatchBalanced | src/messagekit/core/contracts/bus/dispatch_executor.py:51-66 | the traces of any dispatch leave every stack of open handlers as they found it |
| EventBus.DispatchTracesMatch | src/messagekit/core/contracts/bus/dispatch_executor.py:51-66 | each begin is paired with the end of the same handler |
| EventBus.InvokeAllRuns | src/messagekit/core/contracts/bus/backends.py:48-49 | at its own level the loop completes a prefix of the handlers, all successful but the last if it raised |
| EventBus.DispatchRunsSnapshot | src/messagekit/core/contracts/bus/event_bus.py:73-84 | an enabled dispatch runs exactly the handlers registered when it began, up to and including the first failure; a disabled one runs none |
| EventBus.DispatchStopsAtFirstRaise | src/messagekit/core/contracts/bus/dispatch_executor.py:51-66 | each handler that runs ends as its code does, a failure traced if it raises and a success if it comes to its end, given how its own dispatches end; the first that raises is the last to run, and the dispatch raises exactly if there is one |
| EventBus.FirstHandlerRaises | src/messagekit/core/contracts/bus/dispatch_executor.py:56-61 | if the first handler raises, its begin and its failure are all the traces, and the dispatch raises |
| EventBus.RegisteredComesLast | src/messagekit/core/contracts/bus/event_bus.py:57 | a handler comes last in its event's list, and no other list changes |
| EventBus.DispatchOnlyRegisters | src/messagekit/core/contracts/bus/event_bus.py:47-57 | whatever a dispatch runs, it removes no handler and puts none in front of another |
| Outbox.CountUnpublished | src/messagekit/infrastructure/outbox/outbox_queries.py:34-45 | pending rows are all rows less those published or failed |
| Outbox.OldestUnpublishedAge | src/messagekit/infrastructure/outbox/outbox_queries.py:47-57 | the age of the oldest pending row, zero if there is none or it lies in the future |
| Outbox.OutboxTable.AddEvent | src/messagekit/infrastructure/outbox/outbox_crud/operations/crud_operations/add.py:30-40 | with the caller's session the event waits there; without, one fresh pending row with count zero, or an error and no change if the identifier exists |
| Outbox.OutboxTable.CommitSession | src/messagekit/infrastructure/outbox/outbox_crud/operations/crud_operations/add.py:20-32 | the caller's commit turns all of the session's events into rows or none |
| Outbox.InsertAllExactly | src/messagekit/infrastructure/outbox/outbox_crud/operations/crud_operations/add.py:20-32 | a commit adds exactly the session's rows and leaves all others alone |
| Outbox.InsertableExactly | src/messagekit/infrastructure/outbox/outbox_crud/operations/crud_operations/add.py:20-32 | a session with one more event can still commit exactly if its identifier is neither stored nor added yet |
| Outbox.OutboxTable.MarkPublished | src/messagekit/infrastructure/outbox/outbox_crud/operations/crud_operations/status.py:15-26 | sets flag and time of that row only; status columns stay consistent |
| Outbox.OutboxTable.MarkFailed | src/messagekit/infrastructure/outbox/outbox_crud/operations/crud_operations/status.py:29-42 | sets flag, time and message of that row only; status columns stay consistent |
| Outbox.OutboxTable.ResetFailed | src/messagekit/infrastructure/outbox/outbox_crud/operations/crud_operations/status.py:45-75 | an uninterrupted reset makes an existing row pending with its count one higher |
| Outbox.OutboxTable.RetryEvent | src/messagekit/infrastructure/kafka_dlq/dlq_admin_service.py:30-41 | resets exactly a row that exists and failed, with the right error otherwise |
| OutboxRetries.RowsStayConsistent | src/messagekit/infrastructure/outbox/outbox_crud/operations/crud_operations/status.py:15-91 | in every interleaving, failed, its time and its message go together, and published rows have their time |
| OutboxHistory.StatusIsHistory | src/messagekit/infrastructure/outbox/outbox_crud/operations/crud_operations/status.py:15-91 | in every interleaving the status columns tell the row's history: published or failed exactly if so marked since the last reset, with the times and the message of the last mark; pending exactly if nothing was marked since it was inserted or reset |
| OutboxHistory.UninterruptedRuns | src/messagekit/infrastructure/kafka_dlq/dlq_admin_service.py:30-41 | without interruption a reset, and a retry of a failed row, do to the table what the operation does; a retry of any other row nothing |
| OutboxRetries.AttemptCountExactly | src/messagekit/infrastructure/outbox/outbox_crud/operations/crud_operations/status.py:59-75 | in every run the count is the number of completed resets exactly if no reset of the row was written between another one's read and its write |
| OutboxRetries.AttemptCountBounds | src/messagekit/infrastructure/outbox/outbox_crud/operations/crud_operations/status.py:59-75 | after any interleaving the count lies between one and the completed resets, and equals them exactly if no reset wrote back a stale count |
| OutboxRetries.SerialResetsAreCounted | src/messagekit/infrastructure/outbox/outbox_crud/operations/crud_operations/status.py:59-75 | when resets of a row do not overlap, the count is their number |
| OutboxRetries.RetriesArePaidFor | src/messagekit/infrastructure/kafka_dlq/dlq_admin_service.py:30-41 | when retries of a row do not overlap, they never outnumber its failures |
| OutboxRetries.RetryBalance | src/messagekit/infrastructure/kafka_dlq/dlq_admin_service.py:30-41 | in every run failures = repeated failures + timely resets + a failure still standing; so retries exceed failures by late retries at most, and exactly when these outnumber what is left over |
| OutboxRetries.RetryIsLateExactly | src/messagekit/infrastructure/kafka_dlq/dlq_admin_service.py:30-41 | in every run a retry finds the row no longer failed exactly if a reset has come between it and the last failure before it |
| OutboxRetries.RetriedTwiceExactly | src/messagekit/infrastructure/kafka_dlq/dlq_admin_service.py:30-41 | in every run two retries retry one failure exactly if the second had passed its check when the first wrote and no failure came between their writes |
| OutboxRetries.QuietOverlapIsNeeded | src/messagekit/infrastructure/kafka_dlq/dlq_admin_service.py:30-41 | a run without such a pair has no more retries of the row than failures |
| OutboxRetries.OverlappingRetries | src/messagekit/infrastructure/kafka_dlq/dlq_admin_service.py:30-41 | overlapping retries: one failure, two retries, two resets, count one |

## Left out

- CircuitBreakers.CircuitBreaker.Call: runs without interruption by other callers. Interleavings at every suspension point are the runs of `BreakerRuns.dfy`, and `PlayIsRun` shows the call to be one of them.
- CircuitBreakers.CircuitBreaker.ExecuteCall: runs without interruption too, and leaves out the second branch of `_execute_call` (lines 65-66), which calls the function again if its result is no coroutine. The wrapped function makes finitely many calls.
- OvertakingRuns.ForwardingRefinesExactly: where some but not all messages of one identifier have a routing key, claims made through another partition can free a blocked one, and only the two directions by themselves are stated (`OvertakableLeavesGap`; `ForwardingRefinesPartition` and `SentWithinLimit`).
- Floating point and wall clocks: times are reals, handed in by the caller or by the run.
- FastStream, the Kafka and RabbitMQ clients and Debezium: only what they do to logs, positions and offsets. Their acks and nacks may raise, and may take effect and raise.
- SQLAlchemy sessions and dialects, `is_duplicate_claim` and the statement builders: the table semantics stated under "Premises".
- Column widths (`String(36)` for identifiers): identifiers are unbounded strings.
- Handlers.Runtime.ClaimEvent: does not model the wait for another transaction's uncommitted row; the method is called once nobody holds the key. The machine in `Pipeline.dfy` has the waiting, as a claim step that does nothing while the key is held.
- Handlers.Runtime.ProcessKafkaMessage: runs without interruption by other tasks. Their attempts in flight are part of the machine's state, and interleavings at every suspension point are the machine's runs.
- The log messages of `process_kafka_message`, whose `message.get` cannot fail on a decoded object.
- Handlers.Runtime.ConsumeDelivery: the effect of a handler is one record in the session; what business code writes besides is its own affair. A rollback is the end of the attempt.
- EventBus.EventBus.Dispatch: what a handler does at an invocation is an arbitrary choice among finite scripts that register, dispatch, react to the outcome of a dispatch, and raise; hooks record and do not raise; no cancellation. Handlers that dispatch without end meet the interpreter's recursion limit, modelled as a depth at which a dispatch raises before it runs anything. The debug log lines and the decorator form of `register` are not modelled.
- JSON values other than strings and null are reduced to truthiness and text.
- Routing templates with format specifications, conversions, attribute or index access: segments are literal text or a plain placeholder.
- Integers in version strings are ASCII digits with optional sign and single underscores; `int` also takes other Unicode digits.
- Schemas are the fragment the check reads: `required`, and properties with at most one of the seven type names. List-valued `type`, nested schemas and other keywords are not modelled.
- The parsing of events, regular expressions for formats, CloudEvents, full JSON Schema validation: library behaviour.
- Rate limiter, catalog manager, settings, routes, health aggregation, dead-letter extractors, replay counters, telemetry: thin wrappers, library behaviour, or properties of one expression.
