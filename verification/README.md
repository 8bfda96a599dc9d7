# Event ingestion API — a Dafny model

This project models the core of a small event-ingestion service written in C#.

- **POST /events** validates a request body. It accepts an event type case-insensitively from {login, logout, purchase} and builds a normalised `UserEvent`: the user id trimmed, the type lower-cased, and the timestamp defaulted to the current time. It then hands the event to a Kafka producer and maps the outcome to 202, 499 or 500.
- **GET /events** clamps the requested limit to 1..1000 (100 when absent) and reads the processed-event store.
- **The processed-event store** is an append-only queue read back newest first.
- **A background consumer** subscribes to the topic and polls records in a loop. It appends every decoded event to the store, swallows consume errors, stops on cancellation, and closes and disposes its consumer handle on every way out.

Modules, one per file:

- `Wrappers`: Option and Result.
- `Text`: ASCII white space, `Trim`, the invariant case maps and ordinal ignore-case equality.
- `Exceptions`: the exception types involved, their inheritance, and catch-clause selection.
- `Events`: the `IngestEventRequest` and `UserEvent` records.
- `ProcessedEventStore`: the store class.
- `EventsController`: POST and GET.
- `KafkaConsumer`: the consumer loop and the call log of its handle.
- `Pipeline`: one end-to-end scenario.

The store and the consumer change state in place, so they are classes.

- The store class holds a `seq<UserEvent>`. `Append` is a method; `GetRecent` is a function of the state.
- The consumer's `ExecuteAsync` is a method with a `while` loop. It drives the store and a `ConsumerClient`, which records the calls made on the Kafka handle.
- The environment of the loop is a script of `Iteration`s. Each one gives the stop token's state at the loop test, what `Consume` and `Deserialize` produced, and how `Task.Delay` ended.
- The method is proved equal to a pure function `Run` over that script. The lemmas about the loop are stated about `Run`.

Notes on behaviour that the model follows from the code:

- `[Required]` on a string does not allow empty strings by default. It rejects null, empty and white-space-only values. So a white-space-only user id fails model validation, and every event POST builds has a non-empty, trimmed user id (`NormalizedEventIsCanonical`, `WhiteSpaceUserIdIsInvalid`). Trimming on its own would turn such an id into the empty string; the validation gate is what rules that out.
- A record that fails to decode throws a `JsonException`. That is not a `ConsumeException`, so it is not caught inside the loop. It is not an `OperationCanceledException` either, so it escapes `ExecuteAsync` after the handle has been closed and disposed. A malformed record is therefore not skipped: it ends consumption (`MalformedRecordEndsLoop`).
- The store is unbounded: nothing is ever evicted (`RecentBeyondCountIsEverything`).
- `[MinLength]` measures `string.Length`, which counts UTF-16 code units, so a character above U+FFFF counts twice (`Text.Utf16Length`). A type such as "a" followed by one emoji has length 3: it passes validation and is refused by the type check (`SurrogatePairTypeIsRejectedAsUnknown`).
- A null consume result hits `continue`, so that turn skips `Task.Delay`. A cancellation during the delay arrives as a `TaskCanceledException`, which the outer clause catches as an `OperationCanceledException`. The event read in that turn has already been appended (`CancelledDelayStopsAfterAppend`).

## Model

| member | source | states |
|---|---|---|
| `Text.Trim` | TestAPI2/Controllers/Test.cs:35 | the result is the slice of the input between a white-space prefix and a white-space suffix, and starts and ends with a non-white-space character when non-empty |
| `Text.TrimEmptyIff` | TestAPI2/Controllers/Test.cs:35 | trimming yields the empty string exactly when the input is empty or all white space |
| `Text.Utf16Length` | TestAPI2/Controllers/Test.cs:78-79 | the length `[MinLength]` measures lies between the number of characters and twice that, and equals it when no character is above U+FFFF |
| `Text.IgnoreCaseIffSameLowerCase` | TestAPI2/Controllers/Test.cs:12-36 | ordinal ignore-case equality (upper-case comparison) holds exactly when the two lower-cased strings are equal |
| `Exceptions.EveryExceptionIsAnException` | TestAPI2/Controllers/Test.cs:50 | every exception type is an instance of Exception, so a `catch (Exception)` clause catches anything |
| `Exceptions.FirstMatch` | TestAPI2/Controllers/Test.cs:40-54 | the chosen catch clause is the first one, in source order, whose type the exception is an instance of; none is chosen exactly when no clause matches |
| `EventsController.IsAllowedType` | TestAPI2/Controllers/Test.cs:12-13 | each canonical spelling is accepted, and an accepted type has the length of one of them (5, 6 or 8) |
| `EventsController.AllowedTypeIff` | TestAPI2/Controllers/Test.cs:12-31 | a type is in the case-insensitive allowed set exactly when its lower-case form is login, logout or purchase |
| `EventsController.Required` | TestAPI2/Controllers/Test.cs:78-79 | a value passing `[Required]` also passes `[MinLength(1)]` |
| `EventsController.RequiredIffNonEmptyAfterTrim` | TestAPI2/Controllers/Test.cs:78-79 | `[Required]` holds exactly when the value is present and trimming leaves something of it |
| `EventsController.MinLength` | TestAPI2/Controllers/Test.cs:78-79 | a missing value passes; a value of at least n characters passes; one of fewer than n/2 characters fails |
| `EventsController.ModelStateValid` | TestAPI2/Controllers/Test.cs:29 | the model state is valid exactly when binding succeeded, both strings pass `[Required]` and the type passes `[MinLength(3)]`; the user id's `[MinLength(1)]` adds nothing |
| `EventsController.Normalize` | TestAPI2/Controllers/Test.cs:29-38 | invalid model state fails with a validation error before the type check; otherwise a disallowed type fails with the message naming the three types; otherwise the event has the trimmed user id, the lower-cased type, the supplied timestamp or `now`, and the data unchanged |
| `EventsController.NormalizedEventIsCanonical` | TestAPI2/Controllers/Test.cs:34-38 | every built event has a type among the three lower-case values and a non-empty user id with no leading or trailing white space |
| `EventsController.WhiteSpaceUserIdIsInvalid` | TestAPI2/Controllers/Test.cs:77-79 | a white-space-only user id fails `[Required]`, so the request is a validation failure |
| `EventsController.PublishResponse` | TestAPI2/Controllers/Test.cs:40-54 | publishing gives 202 exactly on success, 499 exactly on an OperationCanceledException or subclass, 500 exactly on any other exception; no exception escapes the action |
| `EventsController.CancellationClauseComesFirst` | TestAPI2/Controllers/Test.cs:46-53 | a cancellation also matches `catch (Exception)`, yet gives 499 because its clause comes first; with the clauses swapped it would give 500 |
| `EventsController.Post` | TestAPI2/Controllers/Test.cs:27-55 | an event is handed to the producer exactly when the model state is valid and the type is allowed; invalid state gives a validation problem, a disallowed type a bad request with the allowed-types message, and a published event the publish response |
| `EventsController.PostStatus` | TestAPI2/Controllers/Test.cs:27-55 | POST returns 400 exactly when nothing was published, 202 exactly when an event was published successfully, and always one of 400, 202, 499, 500 |
| `EventsController.RefundIsRejected` | TestAPI2/Controllers/Test.cs:31-32 | a well-formed request with type "refund" gets a bad request with the allowed-types message and publishes nothing |
| `EventsController.SurrogatePairTypeIsRejectedAsUnknown` | TestAPI2/Controllers/Test.cs:29-32 | a type of "a" and one character above U+FFFF passes `[MinLength(3)]` and gets the bad request naming the three types |
| `EventsController.FilledAllowedRequestIsPublished` | TestAPI2/Controllers/Test.cs:29-44 | a request with non-blank strings, a type of at least three characters and an allowed type is published with the trimmed id and the lower-cased type, and answered with the publish response |
| `EventsController.AliceLogsIn` | TestAPI2/Controllers/Test.cs:34-44 | user id " alice " with type "LOGIN" is accepted (202) and published as ("alice", "login", now, no data) |
| `EventsController.Clamp` | TestAPI2/Controllers/Test.cs:60 | the result lies in [lo, hi]: the value itself when inside, lo when below, hi when above |
| `EventsController.TakeCount` | TestAPI2/Controllers/Test.cs:58-60 | the number read is between 1 and 1000: 100 when no limit is given, the limit itself when it is in range, 1 for a limit below 1 and 1000 for a limit above 1000 |
| `EventsController.Get` | TestAPI2/Controllers/Test.cs:57-63 | GET returns min(take, stored) events, at most 1000 and at least one when the store is non-empty, newest first |
| `ProcessedEventStore.Reverse` | TestAPI2/Services/InMemoryProcessedEventStore.cs:14 | the reversal has the same length, with element i equal to the input's element n-1-i |
| `ProcessedEventStore.Take` | TestAPI2/Services/InMemoryProcessedEventStore.cs:14 | the result is a prefix of the input of length min(n, count), empty when n <= 0 |
| `ProcessedEventStore.InMemoryProcessedEventStore.constructor` | TestAPI2/Services/InMemoryProcessedEventStore.cs:8 | the store starts empty |
| `ProcessedEventStore.InMemoryProcessedEventStore.Append` | TestAPI2/Services/InMemoryProcessedEventStore.cs:10 | the new contents are the old contents with the event added at the newest end, nothing else changed |
| `ProcessedEventStore.InMemoryProcessedEventStore.GetRecent` | TestAPI2/Services/InMemoryProcessedEventStore.cs:12-15 | returns min(limit, count) events (none when limit <= 0), element i being the (i+1)-th most recent; reads the state without changing it |
| `ProcessedEventStore.RecentAfterAppends` | TestAPI2/Services/InMemoryProcessedEventStore.cs:10-14 | after e1..en are appended, reading n returns en..e1 |
| `ProcessedEventStore.RecentBeyondCountIsEverything` | TestAPI2/Services/InMemoryProcessedEventStore.cs:8-14 | a limit at or beyond the count returns every stored event, newest first: nothing is evicted |
| `ProcessedEventStore.RecentIsMonotone` | TestAPI2/Services/InMemoryProcessedEventStore.cs:14 | a smaller limit reads a prefix of what a larger limit reads |
| `ProcessedEventStore.DuplicatesAreKept` | TestAPI2/Services/InMemoryProcessedEventStore.cs:10 | appending the same event twice stores and returns two entries |
| `KafkaConsumer.Turn` | TestAPI2/Kafka/KafkaConsumerHostedService.cs:43-59 | one pass appends exactly the decoded event; a null result leaves before the delay; a thrown exception is swallowed exactly when it is a ConsumeException and otherwise leaves the pass; otherwise only the delay's exception leaves it |
| `KafkaConsumer.OuterExit` | TestAPI2/Kafka/KafkaConsumerHostedService.cs:62-64 | an exception leaving the loop stops it cleanly exactly when it is an OperationCanceledException; otherwise it escapes unchanged |
| `KafkaConsumer.Run` | TestAPI2/Kafka/KafkaConsumerHostedService.cs:34-71 | the loop appends at most one event per poll and polls at most once per turn; a loop still running has polled every turn of the script |
| `KafkaConsumer.AppendedAreTheDecodedPolls` | TestAPI2/Kafka/KafkaConsumerHostedService.cs:45-53 | the store receives exactly the events of the decoded records among those polled, each once, in consumption order; null results, null decodes and exceptions add nothing |
| `KafkaConsumer.RunConcat` | TestAPI2/Kafka/KafkaConsumerHostedService.cs:41-60 | running two scripts in sequence equals running their concatenation; the second has no effect once the first has left the loop |
| `KafkaConsumer.RunEndsAtFirstEndingTurn` | TestAPI2/Kafka/KafkaConsumerHostedService.cs:41-64 | the loop ends at the first turn where the token is cancelled or an exception leaves the body: cleanly on cancellation or an OperationCanceledException, faulted on anything else |
| `KafkaConsumer.RunWithoutEndingTurn` | TestAPI2/Kafka/KafkaConsumerHostedService.cs:41-60 | without cancellation or an escaping exception the loop polls every turn, appends every decoded event and keeps running |
| `KafkaConsumer.ConsumeErrorIsSwallowed` | TestAPI2/Kafka/KafkaConsumerHostedService.cs:55-58 | a turn whose Consume throws a ConsumeException costs one poll, adds nothing, and the rest of the loop runs as if the turn had not happened |
| `KafkaConsumer.MalformedRecordEndsLoop` | TestAPI2/Kafka/KafkaConsumerHostedService.cs:48-62 | a record whose decoding throws a JsonException ends the loop faulted; the valid record behind it is never read |
| `KafkaConsumer.CancelledDelayStopsAfterAppend` | TestAPI2/Kafka/KafkaConsumerHostedService.cs:49-64 | a cancellation during the delay stops the loop cleanly, after the event read in that turn was appended |
| `KafkaConsumer.ExpectedCallsOrder` | TestAPI2/Kafka/KafkaConsumerHostedService.cs:36-70 | the handle sees Subscribe first and only once, then only Consume calls, then Close followed by Dispose exactly when the loop was left |
| `KafkaConsumer.ConsumerClient.constructor` | TestAPI2/Kafka/KafkaConsumerHostedService.cs:30 | a new handle has seen no calls and is not disposed |
| `KafkaConsumer.ConsumerClient.Subscribe` | TestAPI2/Kafka/KafkaConsumerHostedService.cs:36 | records the subscription to the topic; needs an undisposed handle |
| `KafkaConsumer.ConsumerClient.Consume` | TestAPI2/Kafka/KafkaConsumerHostedService.cs:45 | records one poll; needs an undisposed handle |
| `KafkaConsumer.ConsumerClient.Close` | TestAPI2/Kafka/KafkaConsumerHostedService.cs:68 | records the close; needs an undisposed handle |
| `KafkaConsumer.ConsumerClient.Dispose` | TestAPI2/Kafka/KafkaConsumerHostedService.cs:69 | records the disposal and marks the handle disposed |
| `KafkaConsumer.KafkaConsumerHostedService.constructor` | TestAPI2/Kafka/KafkaConsumerHostedService.cs:14-32 | the service holds the shared store, the topic and a fresh, unused consumer handle |
| `KafkaConsumer.KafkaConsumerHostedService.LoopBody` | TestAPI2/Kafka/KafkaConsumerHostedService.cs:43-59 | one pass polls once, appends exactly the decoded event (if any), and returns the exception leaving the pass as `Turn` says |
| `KafkaConsumer.KafkaConsumerHostedService.ExecuteAsync` | TestAPI2/Kafka/KafkaConsumerHostedService.cs:34-71 | the exit and the events appended to the store are those of `Run`, the old contents are kept as a prefix, and the handle's calls are Subscribe, one Consume per poll, then Close and Dispose exactly when the loop was left |
| `Pipeline.AliceRoundTrip` | TestAPI2/Controllers/Test.cs:34-62 | POST of (" alice ", "LOGIN") returns 202, and once the consumer has appended that record, GET with limit 1 returns ("alice", "login") |

## Left out

- The Kafka producer (TestAPI2/Kafka/KafkaProducer.cs) is not part of this model: its configuration, `ProduceAsync`, and `Flush` and `Dispose`. Its behaviour reaches the controller as the `PublishOutcome` input. Its log-and-rethrow of a `ProduceException` arrives as `Threw(ProduceException)`, which gives 500.
- JSON serialisation and deserialisation are not modelled. A decode is an abstract outcome of each turn (an event, null, or an exception), so the wire-format round trip is not stated.
- Kafka broker behaviour is not modelled: offsets, auto-commit, partitions and the offset-reset policy. What a poll returns is an input.
- Configuration reads and their defaults (topic "user-events", group "challenge-consumer") are not modelled; the topic is a constructor parameter.
- Async scheduling is not modelled: `await`, the 10 ms delay's timing, and the thread safety of `ConcurrentQueue`. The store is sequential state with a single writer.
- `ExecuteAsync` runs against a finite script of turns. When the script runs out the loop is reported as `Running`, and the `finally` block has not been reached.
- Exceptions thrown by `Subscribe`, `Close` or `Dispose`, and logging, are not modelled.
- ASP.NET plumbing is not modelled. Binding errors are one boolean input, `bindingOk`. The validation attributes are taken at their declared meaning. How MVC treats validation metadata on positional record properties is not modelled, and neither is the `[ApiController]` automatic 400 that answers before the action runs. ProblemDetails bodies and dependency injection are left out too.
- Case mapping and white space cover ASCII only; lengths are counted in UTF-16 code units as .NET does. `Trim`, `ToLowerInvariant`, `ToUpperInvariant` and `OrdinalIgnoreCase` leave non-ASCII characters unchanged. Unicode white space beyond the six ASCII characters is not trimmed.
- `DateTimeOffset.UtcNow` is the `now` parameter, and a timestamp is an instant in UTC ticks. A `JsonElement` is an opaque value.
- The query limit is an unbounded integer rather than a 32-bit `int`; clamping makes the two agree.
