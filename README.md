# LDBC SNB driver runtime: metrics and completion-time services, event decoding, Query 11

This project models, in Dafny, the sequential cores of the LDBC SNB benchmark driver:

- **The metrics service thread** (`ThreadedQueuedConcurrentMetricsServiceThread.run`): the
  single consumer of metrics events. A SUBMIT_RESULT event writes an optional CSV row,
  passes the late-start check (`scheduled + tolerated < actual` sends the decision to the
  delay policy) and counts the event. WORKLOAD_STATUS and WORKLOAD_RESULT resolve their futures.
  The first TERMINATE_SERVICE fixes the expected event count and a later one is reported.
  The loop drains until the processed count reaches the expected count, or stops on an
  unexpected event type or a Throwable. `MetricsServiceThread.MetricsServiceThread.Run` is the `while`
  loop over the class's fields. It is proved equal to the pure `RunEvents`, and the lemmas
  about the protocol are stated over `RunEvents`.
- **The completion-time service front end** (`ThreadedQueuedConcurrentCompletionTimeService`):
  writer registration, GCT future requests, initiated, completed and peer time submissions,
  and idempotent shutdown. All of them append to one shared event queue.
  `SharedState` holds the queue, the write-event counter and the shutting-down flag, which the
  service and its writers share as the Java atomics are shared. An invariant ties all three
  together: the counter counts the write events on the queue, a termination event appears
  once shutdown has begun and carries the number of writes ahead of it, and no initiated
  time follows it. The invariant holds because the model treats each call as one atomic
  step. In Java the writers' submissions are not synchronized with `shutdown`, and each one
  increments the counter before it enqueues its event (lines 154-155 and 165-166), so a
  termination event enqueued in between (line 119) may carry a count whose write is not yet
  on the queue. Both futures are one set-once class, `OneShotFuture<T>`.
- **CSV event decoding**: `CsvEventStreamReader_NEW` takes a key from each row and decodes
  the row with the decoder registered for that key. Query 16's decoder seeks five columns in
  order. It returns end of input when the first column is missing, and raises an error
  naming the first later column that is missing.
- **The Query 11 operation value** (`LdbcSnbBiQuery11UnrelatedReplies`): null-safe `equals`,
  the 31-multiplier `hashCode` with 32-bit wrap-around, the three-entry parameter map, and
  the row mapping of results, which round-trips. The accessors `country()`, `blackList()`
  and `limit()` are the destructors of the `Query11` datatype, so they return exactly the
  constructor's arguments.
- **`Neo4jClient.asDelimitedString`**: joins `prefix + s` for every string with commas. An
  empty input fails in `substring(0, -1)`.

Nulls are `Option` values. Exceptions are `Result`/`Outcome` values. Java `int` and `long`
values are the `Int32`/`Int64` types of module `JavaInts`. Nanosecond times are `Nanos`,
non-negative `long`s. Wrap-around is written out in the Query 11 hash code, in the narrowing
`longValue()`/`intValue()` of marshalResult, and in the metrics thread's late-start sum
`scheduled + tolerated`. The counters are unbounded (see "## Left out").

Two details of the metrics loop's `run()`:
- A MetricsCollectionException from `measure` is caught and reported, and the loop goes on.
  Only other Throwables stop it.
- A second termination event is reported, and the loop keeps processing.

## Model

| member | source | states |
|---|---|---|
| MetricsServiceThread.ShouldRecord | src/main/java/com/ldbc/driver/runtime/metrics/ThreadedQueuedConcurrentMetricsServiceThread.java:68-79 | with delay recording off a result is always recorded; an operation that started strictly after scheduled + tolerated is recorded iff the policy says so; `actual <= scheduled + tolerated` (equality included) is recorded when the sum fits in a `long`; when the `long` sum overflows it wraps negative, so every operation counts as late and the policy decides |
| MetricsServiceThread.PolicyDecidesLateResults | src/main/java/com/ldbc/driver/runtime/metrics/ThreadedQueuedConcurrentMetricsServiceThread.java:68-79 | a permissive policy records every result; a refusing policy records exactly the on-time ones, those with `actual <= scheduled + tolerated` and no `long` overflow in the sum (or all, with delay recording off) |
| MetricsServiceThread.Step | src/main/java/com/ldbc/driver/runtime/metrics/ThreadedQueuedConcurrentMetricsServiceThread.java:56-121 | one loop pass: it continues iff the event neither raised nor had an unexpected type; processedEventCount grows by exactly 1 for a SUBMIT_RESULT (recorded or not) and by 0 otherwise; only a first termination event changes expectedEventCount; an error is reported exactly on a stop, a second termination or a failing measure |
| MetricsServiceThread.RunEvents | src/main/java/com/ldbc/driver/runtime/metrics/ThreadedQueuedConcurrentMetricsServiceThread.java:50-129 | run consumes at most the given events, and all of them when it ends waiting for more |
| MetricsServiceThread.RunExit | src/main/java/com/ldbc/driver/runtime/metrics/ThreadedQueuedConcurrentMetricsServiceThread.java:53-128 | run consumes a prefix of the events; it exits Drained iff the expected count is set and processed >= expected; it halts iff the last consumed event had an unexpected type or raised a Throwable; otherwise every event was consumed |
| MetricsServiceThread.RunningBeforeEachConsumed | src/main/java/com/ldbc/driver/runtime/metrics/ThreadedQueuedConcurrentMetricsServiceThread.java:53-55 | the loop condition is checked before every fetch: every consumed event was fetched while the expected count was unset or not yet reached, so no event is consumed once the count is reached, whatever order results and termination come in |
| MetricsServiceThread.RunStopsAtFirstStop | src/main/java/com/ldbc/driver/runtime/metrics/ThreadedQueuedConcurrentMetricsServiceThread.java:116-126 | no event before the last consumed one raised or had an unexpected type, so nothing is processed after an error stop |
| MetricsServiceThread.RunProcessedCount | src/main/java/com/ldbc/driver/runtime/metrics/ThreadedQueuedConcurrentMetricsServiceThread.java:81-115 | processedEventCount grows by the number of consumed SUBMIT_RESULT events, and status, snapshot and termination events add nothing |
| MetricsServiceThread.RunMeasured | src/main/java/com/ldbc/driver/runtime/metrics/ThreadedQueuedConcurrentMetricsServiceThread.java:68-91 | measure is called on exactly the consumed results the late-start check records, in order |
| MetricsServiceThread.RunLogged | src/main/java/com/ldbc/driver/runtime/metrics/ThreadedQueuedConcurrentMetricsServiceThread.java:60-66 | with a CSV writer, every consumed result writes one row (class name, scheduled ms, actual ms, duration ms), whatever the recording decision |
| MetricsServiceThread.RunResolvesFutures | src/main/java/com/ldbc/driver/runtime/metrics/ThreadedQueuedConcurrentMetricsServiceThread.java:94-102 | each consumed status or snapshot request resolves its future with the manager's view of exactly the results measured ahead of it |
| MetricsServiceThread.RunExpectedEventCount | src/main/java/com/ldbc/driver/runtime/metrics/ThreadedQueuedConcurrentMetricsServiceThread.java:103-114 | the first termination event sets expectedEventCount; later ones leave the first value in place |
| MetricsServiceThread.DrainAfterTermination | src/main/java/com/ldbc/driver/runtime/metrics/ThreadedQueuedConcurrentMetricsServiceThread.java:53-115 | n results followed by a termination event carrying their count are all processed, and the loop stops right after it (Drained) |
| MetricsServiceThread.MetricsServiceThread.constructor | src/main/java/com/ldbc/driver/runtime/metrics/ThreadedQueuedConcurrentMetricsServiceThread.java:18-48 | processedEventCount starts at 0, expectedEventCount unset, all logs empty |
| MetricsServiceThread.MetricsServiceThread.HandleEvent | src/main/java/com/ldbc/driver/runtime/metrics/ThreadedQueuedConcurrentMetricsServiceThread.java:54-126 | one pass of the loop body over the class's fields leaves exactly the state and continue flag of Step |
| MetricsServiceThread.MetricsServiceThread.Run | src/main/java/com/ldbc/driver/runtime/metrics/ThreadedQueuedConcurrentMetricsServiceThread.java:50-129 | the while loop over the fields leaves exactly the state, consumed count and exit of RunEvents |
| CompletionTimeService.OneShotFuture.constructor | src/main/java/com/ldbc/driver/runtime/coordination/ThreadedQueuedConcurrentCompletionTimeService.java:174-181 | a new future is not done and holds its initial value |
| CompletionTimeService.OneShotFuture.IsDone | src/main/java/com/ldbc/driver/runtime/coordination/ThreadedQueuedConcurrentCompletionTimeService.java:200-203 | isDone reports the done flag |
| CompletionTimeService.OneShotFuture.Set | src/main/java/com/ldbc/driver/runtime/coordination/ThreadedQueuedConcurrentCompletionTimeService.java:183-188 | the first set stores the value and makes the future done; a later set fails with "Value has already been set" and keeps the first value (the writer future's set at lines 235-240 is the same) |
| CompletionTimeService.OneShotFuture.Get | src/main/java/com/ldbc/driver/runtime/coordination/ThreadedQueuedConcurrentCompletionTimeService.java:205-211 | on a done future get returns the set value |
| CompletionTimeService.OneShotFuture.GetWithin | src/main/java/com/ldbc/driver/runtime/coordination/ThreadedQueuedConcurrentCompletionTimeService.java:213-223 | the timed get returns the value iff the future is done and the deadline allows a check, and otherwise raises "Could not complete future in time" |
| CompletionTimeService.WriteKeepsInvariant | src/main/java/com/ldbc/driver/runtime/coordination/ThreadedQueuedConcurrentCompletionTimeService.java:148-171 | an accepted write submission keeps the queue invariant with the counter one higher (initiated times only before shutdown) |
| CompletionTimeService.RequestKeepsInvariant | src/main/java/com/ldbc/driver/runtime/coordination/ThreadedQueuedConcurrentCompletionTimeService.java:55-92 | registration and GCT-future requests keep the invariant without changing the counter |
| CompletionTimeService.TerminationKeepsInvariant | src/main/java/com/ldbc/driver/runtime/coordination/ThreadedQueuedConcurrentCompletionTimeService.java:111-119 | starting shutdown appends the termination event with the current count and keeps the invariant, now shutting down |
| CompletionTimeService.TerminationCarriesWriteCount | src/main/java/com/ldbc/driver/runtime/coordination/ThreadedQueuedConcurrentCompletionTimeService.java:111-119 | after shutdown there is exactly one termination event, and it carries the number of write submissions enqueued before it |
| CompletionTimeService.AtMostOneTermination | src/main/java/com/ldbc/driver/runtime/coordination/ThreadedQueuedConcurrentCompletionTimeService.java:111-114 | a queue that counts at most one termination event holds it at one position only |
| CompletionTimeService.PollRegistrationFirstDecides | src/main/java/com/ldbc/driver/runtime/coordination/ThreadedQueuedConcurrentCompletionTimeService.java:63-75 | registration succeeds iff some round sees the id with no earlier round seeing an id or an error |
| CompletionTimeService.PollRegistrationTimesOut | src/main/java/com/ldbc/driver/runtime/coordination/ThreadedQueuedConcurrentCompletionTimeService.java:63-75 | registration times out iff no round sees an id or an error |
| CompletionTimeService.PollShutdownFirstDecides | src/main/java/com/ldbc/driver/runtime/coordination/ThreadedQueuedConcurrentCompletionTimeService.java:121-128 | shutdown succeeds iff some round sees completion with no earlier round seeing completion or an error |
| CompletionTimeService.PollShutdownTimesOut | src/main/java/com/ldbc/driver/runtime/coordination/ThreadedQueuedConcurrentCompletionTimeService.java:121-129 | shutdown fails with "Service took too long to shutdown" iff no round sees completion or an error |
| CompletionTimeService.SharedState.constructor | src/main/java/com/ldbc/driver/runtime/coordination/ThreadedQueuedConcurrentCompletionTimeService.java:30-41 | the queue starts empty, the counter at 0, the flag false |
| CompletionTimeService.LocalCompletionTimeWriter.constructor | src/main/java/com/ldbc/driver/runtime/coordination/ThreadedQueuedConcurrentCompletionTimeService.java:138-146 | a writer holds its id and the shared state |
| CompletionTimeService.LocalCompletionTimeWriter.SubmitLocalInitiatedTime | src/main/java/com/ldbc/driver/runtime/coordination/ThreadedQueuedConcurrentCompletionTimeService.java:148-160 | after shutdown it fails and changes neither queue nor counter; before, it appends one initiated event with the writer id and time and adds 1 to the counter |
| CompletionTimeService.LocalCompletionTimeWriter.SubmitLocalCompletedTime | src/main/java/com/ldbc/driver/runtime/coordination/ThreadedQueuedConcurrentCompletionTimeService.java:162-171 | with no shutdown check, it appends one completed event and adds 1 to the counter |
| CompletionTimeService.ThreadedQueuedConcurrentCompletionTimeService.constructor | src/main/java/com/ldbc/driver/runtime/coordination/ThreadedQueuedConcurrentCompletionTimeService.java:34-48 | empty queue, zero counter, not shutting down, GCT null, no writers |
| CompletionTimeService.ThreadedQueuedConcurrentCompletionTimeService.GlobalCompletionTime | src/main/java/com/ldbc/driver/runtime/coordination/ThreadedQueuedConcurrentCompletionTimeService.java:50-53 | returns the value of the shared GCT reference, null until it is set |
| CompletionTimeService.ThreadedQueuedConcurrentCompletionTimeService.NewLocalCompletionTimeWriter | src/main/java/com/ldbc/driver/runtime/coordination/ThreadedQueuedConcurrentCompletionTimeService.java:55-80 | enqueues one registration event with a fresh future and leaves the counter alone; on success the writer list grows by exactly one writer with the observed id; an error report or the deadline fails with the wrapped CompletionTimeException |
| CompletionTimeService.ThreadedQueuedConcurrentCompletionTimeService.GlobalCompletionTimeFuture | src/main/java/com/ldbc/driver/runtime/coordination/ThreadedQueuedConcurrentCompletionTimeService.java:82-92 | returns a fresh unset future after enqueueing it, with the counter unchanged |
| CompletionTimeService.ThreadedQueuedConcurrentCompletionTimeService.GetAllWriters | src/main/java/com/ldbc/driver/runtime/coordination/ThreadedQueuedConcurrentCompletionTimeService.java:94-97 | returns the registered writers in registration order |
| CompletionTimeService.ThreadedQueuedConcurrentCompletionTimeService.SubmitPeerCompletionTime | src/main/java/com/ldbc/driver/runtime/coordination/ThreadedQueuedConcurrentCompletionTimeService.java:99-108 | appends one external event with the peer id and time and adds 1 to the counter, even after shutdown |
| CompletionTimeService.ThreadedQueuedConcurrentCompletionTimeService.Shutdown | src/main/java/com/ldbc/driver/runtime/coordination/ThreadedQueuedConcurrentCompletionTimeService.java:110-130 | a second call returns at once and enqueues nothing; the first sets the flag, enqueues one termination event carrying the write count, and succeeds, fails on an error report, or times out, as the polling rounds decide |
| CsvEventStreamReader.DecodeRow | src/main/java/com/ldbc/driver/generator/CsvEventStreamReader_NEW.java:33-41 | a row decodes iff its key has a decoder, and then to that decoder applied to the same row; otherwise NoSuchElement names the row and the key |
| CsvEventStreamReader.CsvEventStreamReader.constructor | src/main/java/com/ldbc/driver/generator/CsvEventStreamReader_NEW.java:17-23 | the reader holds the rows, the decoders and the key extractor |
| CsvEventStreamReader.CsvEventStreamReader.HasNext | src/main/java/com/ldbc/driver/generator/CsvEventStreamReader_NEW.java:25-28 | hasNext holds iff the underlying iterator has a row left |
| CsvEventStreamReader.CsvEventStreamReader.Next | src/main/java/com/ldbc/driver/generator/CsvEventStreamReader_NEW.java:30-42 | next consumes exactly one row (also when no decoder matches) and returns its decoding; an exhausted iterator raises NoSuchElement |
| CsvEventStreamReader.CsvEventStreamReader.Remove | src/main/java/com/ldbc/driver/generator/CsvEventStreamReader_NEW.java:44-47 | remove always fails with UnsupportedOperationException |
| CsvEventStreamReader.DrainDecodesEveryRow | src/main/java/com/ldbc/driver/generator/CsvEventStreamReader_NEW.java:25-42 | draining ends without error iff every row's key has a decoder, and then yields one event per row, each the decoding of that row, in row order |
| CsvEventStreamReader.DrainStopsAtFirstUndecodableRow | src/main/java/com/ldbc/driver/generator/CsvEventStreamReader_NEW.java:30-42 | draining stops at the first row without a decoder, names that row and its key, after the events of all earlier rows |
| Query16EventStreamReader.CharSeeker.Seek | src/main/java/com/ldbc/driver/workloads/ldbc/snb/bi/Query16EventStreamReader.java:55-57 | each seek moves one column on and finds it iff the column is present, leaving its text at the mark |
| Query16EventStreamReader.ColumnCount | src/main/java/com/ldbc/driver/workloads/ldbc/snb/bi/Query16EventStreamReader.java:111-115 | columnCount() is 5 |
| Query16EventStreamReader.FirstMissing | src/main/java/com/ldbc/driver/workloads/ldbc/snb/bi/Query16EventStreamReader.java:55-103 | the index of the first missing column among the five: every column before it is present, and it is missing unless it is 5 |
| Query16EventStreamReader.Decode | src/main/java/com/ldbc/driver/workloads/ldbc/snb/bi/Query16EventStreamReader.java:55-106 | null (end of input) iff the first column is missing; a decoded array has six elements, the last the default limit, and comes only from five present columns |
| Query16EventStreamReader.DecodeEvent | src/main/java/com/ldbc/driver/workloads/ldbc/snb/bi/Query16EventStreamReader.java:50-107 | the column-by-column decoder returns Decode's outcome and makes exactly SeeksUsed seeks, one per column up to the first failing one |
| Query16EventStreamReader.DecodeByFirstMissing | src/main/java/com/ldbc/driver/workloads/ldbc/snb/bi/Query16EventStreamReader.java:55-106 | first column missing iff null (end of input); columns 2-5: a GeneratorException whose message names the first missing column; all five present iff a 6-element array ending in the default limit |
| Query16EventStreamReader.SeeksOnSuccess | src/main/java/com/ldbc/driver/workloads/ldbc/snb/bi/Query16EventStreamReader.java:55-115 | a successful decode makes exactly columnCount() = 5 seeks; no decode makes more; 5 seeks means a success or a missing fifth column |
| Query16EventStreamReader.OperationFromParameters | src/main/java/com/ldbc/driver/workloads/ldbc/snb/bi/Query16EventStreamReader.java:27-38 | succeeds iff there are six parameters of types long, String, String, int, int, int, and then builds the query from them in order; otherwise raises at the first short index (ArrayIndexOutOfBounds) or mistyped element (ClassCast) |
| Query16EventStreamReader.DecodedParametersMakeOperation | src/main/java/com/ldbc/driver/workloads/ldbc/snb/bi/Query16EventStreamReader.java:27-38 | operationFromParameters accepts a decoded array and builds the query from parameters 0..5 in order: person, tag class, country, min and max distance, limit |
| LdbcSnbBiQuery11UnrelatedReplies.Type | src/main/java/com/ldbc/driver/workloads/ldbc/snb/bi/LdbcSnbBiQuery11UnrelatedReplies.java:135-139 | type() is 11 |
| LdbcSnbBiQuery11UnrelatedReplies.NullSafeEquals | src/main/java/com/ldbc/driver/workloads/ldbc/snb/bi/LdbcSnbBiQuery11UnrelatedReplies.java:76-78 | the null-safe comparison holds iff both are null or both are equal values |
| LdbcSnbBiQuery11UnrelatedReplies.Equals | src/main/java/com/ldbc/driver/workloads/ldbc/snb/bi/LdbcSnbBiQuery11UnrelatedReplies.java:64-80 | equals is false for null and other classes, otherwise true iff limit, country and black list are equal |
| LdbcSnbBiQuery11UnrelatedReplies.EqualsReflexive | src/main/java/com/ldbc/driver/workloads/ldbc/snb/bi/LdbcSnbBiQuery11UnrelatedReplies.java:66-68 | every operation equals itself |
| LdbcSnbBiQuery11UnrelatedReplies.EqualsSymmetric | src/main/java/com/ldbc/driver/workloads/ldbc/snb/bi/LdbcSnbBiQuery11UnrelatedReplies.java:64-80 | equals is symmetric |
| LdbcSnbBiQuery11UnrelatedReplies.EqualsTransitive | src/main/java/com/ldbc/driver/workloads/ldbc/snb/bi/LdbcSnbBiQuery11UnrelatedReplies.java:64-80 | equals is transitive |
| LdbcSnbBiQuery11UnrelatedReplies.HashCode | src/main/java/com/ldbc/driver/workloads/ldbc/snb/bi/LdbcSnbBiQuery11UnrelatedReplies.java:82-89 | the step-by-step hash equals 961 * h(country) + 31 * h(blackList) + limit wrapped once to 32 bits, null hashing to 0 |
| LdbcSnbBiQuery11UnrelatedReplies.EqualsImpliesEqualHashCode | src/main/java/com/ldbc/driver/workloads/ldbc/snb/bi/LdbcSnbBiQuery11UnrelatedReplies.java:64-89 | equal operations have equal hash codes |
| LdbcSnbBiQuery11UnrelatedReplies.ParameterMap | src/main/java/com/ldbc/driver/workloads/ldbc/snb/bi/LdbcSnbBiQuery11UnrelatedReplies.java:45-52 | exactly the keys blackList, country and limit, mapped to the fields; a null black list or country makes the builder throw |
| LdbcSnbBiQuery11UnrelatedReplies.RowError | src/main/java/com/ldbc/driver/workloads/ldbc/snb/bi/LdbcSnbBiQuery11UnrelatedReplies.java:99-103 | a malformed row raises at its first missing or ill-typed field: IndexOutOfBounds iff that field is missing; a null number is a NullPointerException, any other wrong type a ClassCastException |
| LdbcSnbBiQuery11UnrelatedReplies.ResultFieldsRoundTrip | src/main/java/com/ldbc/driver/workloads/ldbc/snb/bi/LdbcSnbBiQuery11UnrelatedReplies.java:97-128 | the four fields written for a result, with a null tag as a null field, are well formed and read back as that result |
| LdbcSnbBiQuery11UnrelatedReplies.SerializeResult | src/main/java/com/ldbc/driver/workloads/ldbc/snb/bi/LdbcSnbBiQuery11UnrelatedReplies.java:116-133 | one row [personId, tag, likeCount, replyCount] per result, same count and order; a null tag is written as null |
| LdbcSnbBiQuery11UnrelatedReplies.MarshalResult | src/main/java/com/ldbc/driver/workloads/ldbc/snb/bi/LdbcSnbBiQuery11UnrelatedReplies.java:91-114 | succeeds iff every row is well formed (numbers at fields 0, 2 and 3, a string or null tag at field 1), then one result per row from fields 0..3 in order; otherwise raises the error of the first malformed row |
| LdbcSnbBiQuery11UnrelatedReplies.SerializeMarshalRoundTrip | src/main/java/com/ldbc/driver/workloads/ldbc/snb/bi/LdbcSnbBiQuery11UnrelatedReplies.java:91-133 | at the list-of-lists level, marshalling what was serialized gives back the same results |
| Neo4jClient.AsDelimitedString | neo4j/src/main/java/com/yahoo/ycsb/db/Neo4jClient.java:268-278 | fails iff the input is empty (substring(0, -1)); otherwise returns the joined text with no trailing comma |
| Neo4jClient.AppendedCons | neo4j/src/main/java/com/yahoo/ycsb/db/Neo4jClient.java:271-276 | the first string visited contributes the first `prefix + s + ","` to the builder |
| Neo4jClient.AppendedIsJoinedComma | neo4j/src/main/java/com/yahoo/ycsb/db/Neo4jClient.java:270-277 | the builder holds the joined text plus exactly one trailing comma, which the final substring removes |
| Neo4jClient.SingleElement | neo4j/src/main/java/com/yahoo/ycsb/db/Neo4jClient.java:270-277 | a single string yields exactly prefix + s |
| Neo4jClient.JoinedLength | neo4j/src/main/java/com/yahoo/ycsb/db/Neo4jClient.java:270-277 | the result's length is the sum of (len(prefix) + len(s)) plus n - 1 |
| Neo4jClient.JoinedElementAt | neo4j/src/main/java/com/yahoo/ycsb/db/Neo4jClient.java:271-277 | the i-th `prefix + s` sits at its offset in the result, so the elements keep iteration order |

## Left out

- The GCT computation: the coordination thread (`ThreadedQueuedConcurrentCompletionTimeServiceThread`) is not part of this model. `gct` starts as null and nothing in the model writes it. Nothing in the completion-time model sets a future or reads the queue either.
- Concurrency: atomics, `synchronized`, queue visibility and thread start are left out. Each service call is one atomic step, and a queue is a sequence of events. QueueInvariant relies on that atomicity: in Java a submission that increments the counter (lines 154 and 165) before `shutdown` enqueues the termination event (line 119) but enqueues its own event after it breaks the invariant.
- Clocks and polling: `TIME_SOURCE`, the deadlines and `Spinner.powerNap` become what each polling round observes (`RegistrationRound`, `ShutdownRound`) or a number of polls (`GetWithin`).
- CompletionTimeService.OneShotFuture.Get: requires the future to be done, because the source spins forever otherwise.
- CompletionTimeService.ThreadedQueuedConcurrentCompletionTimeService.GetAllWriters: returns the writer list by value. Java returns the live `ArrayList`, so a caller there also sees writers registered later.
- The futures' `cancel` (always throws UnsupportedOperationException) and `isCancelled` (always false) are not modelled.
- MetricsServiceThread.MetricsServiceThread.Run: `fetchNextEvent` would wait for more events. The model instead returns `AwaitingEvents` when the given events run out.
- MetricsServiceThread.Step: a Throwable is decided per event, before any of the event's effects. Rows or measurements made before a mid-event throw are not modelled.
- The metrics manager, the delay policy, the CSV writer and the error reporter are not part of this model. They appear only as configuration predicates and append-only logs. A status or snapshot value is given as the list of results measured so far.
- Instants and durations are non-negative nanosecond `long`s with `asMilli` as division by 10^6, because the Time type is not part of this model. Negative times are not modelled. CSV fields are kept as numbers rather than `Long.toString` text. Overflow of the `Long` counters is not modelled.
- CsvEventStreamReader: the row iterator is a sequence of rows. The decoders are total functions, so their own exceptions are not modelled. The error message's `Arrays.toString` is kept as the row itself.
- Query16EventStreamReader: `DEFAULT_LIMIT` of the Query 16 operation class is a parameter, because that class is not part of this model. The CharSeeker and its Mark become one class whose seeks find optional columns. Extractors are total functions. `IOException` is not modelled.
- LdbcSnbBiQuery11UnrelatedReplies: `toString` is not modelled. Null elements in the black list are not modelled. `SerializationUtil` (JSON encoding and decoding) is not part of this model, so serializeResult and marshalResult are modelled at the list-of-lists level. JSON numbers are integers in the model; a fractional number that `longValue()` or `intValue()` would truncate is not modelled.
- LdbcSnbBiQuery11UnrelatedReplies.HashCode: a string's hash runs over Dafny characters (Unicode scalar values), where Java uses UTF-16 code units. The two differ only for characters outside the Basic Multilingual Plane.
- Neo4jClient: `init`, `cleanup`, `read`, `scan`, `update`, `insert` and `delete` are network I/O and are not modelled. Null strings in `asDelimitedString` are not modelled.
- The handler-executor tests, the exponential generator (floating point over random draws), the constant-occupancy workload (property parsing and `double` arithmetic) and the Query 1 reader (a JSON wrapper over a reader that is not part of this model) are outside the modelled core.
