# gatsby-parallel-runner: job admission and correlation, in Dafny

This project models the bookkeeping that gatsby-parallel-runner puts
between the Gatsby build and its Google Cloud workers, and proves
properties of it:

- `Jobs` (job.dfy) models the `Job` class. A job's size is taken once, when
  it is built, from a buffer's length or the file's stat size. The message it
  sends carries the id, the file as base64 text, the arguments as `action`,
  and the result topic.
- `JobQueue` (queue.dfy) models `Queue`: the registry of pending jobs keyed
  by id, the inclusive depth guard (600), the per-push timer, the publish, and
  the routing of `JOB_COMPLETED` / `JOB_FAILED` notifications. It is an event
  machine over these events: push, admit, publish accepted, publish failed,
  timer fired, and notification. Each `push` call is a *ticket* with its own
  promise status, so "a promise settles once" is explicit.
- `ProcessorQueue` (processor_queue.dfy) models `ProcessorQueue.process`:
  - the memory guard on the counter `_mem`;
  - the charge by the job's size;
  - the release on the success path or in the catch block.

  It is an event machine over all `process` calls in flight. Every `await`
  is an event.
- `GoogleFunctions` (google_functions.dfy) models the Google Cloud
  transport's decision logic:
  - its settings and their defaults;
  - size routing in `publish`;
  - `subscribe`;
  - acknowledge, rehydrate and broadcast in `_messageHandler`.
- `Build` (build.dfy) models `messageHandler` in src/build.js: the replies
  sent to Gatsby for each incoming message.
- `JsValue` (js_value.dfy) holds the shared model of JavaScript values:
  - property reads that throw on `undefined` / `null`;
  - truthiness;
  - string conversion;
  - `parseInt(s, 10)`;
  - `x || default`.

Timers, polling loops and the transport's answers are events or parameters,
not time. A disabled event leaves the state unchanged.

The model follows the code where it behaves in ways a reader might not expect:

- A timeout and a failed publish reject the caller but do **not** remove the
  id from the registry. Only a completion or failure notification removes it.
  See "Findings".
- The memory guard compares only the current counter with the ceiling. It
  does not add the incoming job's size, so a job larger than the ceiling is
  admitted when nothing else is charged.
- The default memory ceiling is 200 MiB. The source comment's "2000 megabytes"
  is off by a factor of ten.
- The output-directory check in `messageHandler` is not inert. If the
  directory exists and the job's `args.operations` is missing or malformed,
  `.filter` throws and the reply is `JOB_FAILED`. Without the directory, the
  same job is answered `JOB_COMPLETED`. With well-formed operations the check
  has no effect.
- `processors[name]` also finds properties every object inherits, so a job
  named `constructor` passes the whitelist check.

## Model

| member | source | states |
|---|---|---|
| `JsValue.ParseIntOfNatToString` | src/processor-queue/queue.js:4-6 | `parseInt(s, 10)` reads back the decimal form of every natural number. |
| `JsValue.ParseIntWithoutDigits` | src/processor-queue/queue.js:4-6 | `parseInt(s, 10)` of any string without a decimal digit is NaN. |
| `JobQueue.MaxJobTimeDefaults` | src/processor-queue/queue.js:4-6 | The job timeout is 300000 ms by default or when the variable is empty. A non-zero configured value wins, whatever the variable holds. A variable holding the decimal form of a number gives that number, and any non-empty one without a digit gives NaN. |
| `Jobs.CalculateSize` | src/processor-queue/queue.js:55-65 | The size of a buffer is its byte length. Otherwise it is the stat size of the path, and it fails exactly when the path cannot be stat'ed. |
| `Jobs.NewJob` | src/processor-queue/queue.js:28-41 | Building a job fails exactly when the payload is `undefined`/`null` or the size cannot be taken. When the payload is present and the size cannot be taken, it fails with the stat error; the error for a missing payload is not specified. Otherwise the job holds the payload's id, args and file, and its size is taken at construction. |
| `Jobs.Msg` | src/processor-queue/queue.js:43-53 | The message is {id, file as base64 of the data, action = args, topic}. It fails exactly when the file is a path that cannot be read. |
| `Jobs.MessageCarriesJobSize` | src/processor-queue/queue.js:43-72 | On a disk that does not change, building the message succeeds and carries exactly `fileSize` bytes. |
| `Jobs.DeletedFileFailsMessage` | src/processor-queue/queue.js:67-72 | A file removed between construction and `msg()` makes `msg()` reject, although the size was taken. |
| `JobQueue.Step` | src/processor-queue/queue.js:108-126 | A push adds exactly one ticket and one to `jobCount`; no other event does. Pushes, publish outcomes and timers never change the registry, and a notification can only remove ids from it. `StepKeepsSettled`, `WhatSettlesATicket` and `OnlyNotificationsRemoveEntries` state the rest. |
| `JobQueue.OnMessage` | src/processor-queue/queue.js:130-153 | Handling throws exactly for an `undefined`/`null` notification and for a completion or failure without a payload. Otherwise it never adds a ticket or counts a push, and any change it makes removes exactly the notified id, which was registered. `CompletionForRegisteredId`, `FailureForRegisteredId` and the no-op lemmas state the rest. |
| `JobQueue.Settle` | src/processor-queue/queue.js:109-126 | Resolving or rejecting changes only a pending promise, and only that one. A settled promise ignores later calls. |
| `JobQueue.RunCountsPushes` | src/processor-queue/queue.js:110 | `jobCount` grows by exactly one per `push` call, before the depth guard, along any sequence of events. |
| `JobQueue.AdmitGuard` | src/processor-queue/queue.js:112-116 | A queued push is registered exactly when the registry holds at most 600 entries (inclusive). Registration maps the id to this push's ticket. |
| `JobQueue.RegistryReaches601` | src/processor-queue/queue.js:82 | With 600 entries, one more new id gets in, so the registry reaches 601 entries. After that no push is admitted. |
| `JobQueue.RunPreservesWellFormed` | src/processor-queue/queue.js:108-153 | In every reachable state these hold: one ticket per push, and every entry points back at a registered ticket of the same id. A timer fires only after registration, and the registry never exceeds 601 entries. |
| `JobQueue.CompletionForRegisteredId` | src/processor-queue/queue.js:135-142 | `JOB_COMPLETED` for a registered id resolves that push with the whole payload, adds one to `completeJobCount` and deletes the id. Nothing else changes. |
| `JobQueue.FailureForRegisteredId` | src/processor-queue/queue.js:143-149 | `JOB_FAILED` for a registered id rejects that push with `payload.error` and deletes the id. `completeJobCount` is unchanged. |
| `JobQueue.NotificationForUnknownIdIsNoOp` | src/processor-queue/queue.js:135-149 | A completion or failure for an id not in the registry changes nothing and does not throw. |
| `JobQueue.UnrecognisedTypeIsNoOp` | src/processor-queue/queue.js:150-152 | A notification of any other type changes nothing and does not throw. |
| `JobQueue.MalformedNotificationThrows` | src/processor-queue/queue.js:131-136 | An `undefined`/`null` notification throws, and so does a completion or failure without a payload. The state is left unchanged. |
| `JobQueue.TimeoutKeepsEntry` | src/processor-queue/queue.js:117-121 | The timer rejects with `Job timed out <id>` only while the id is registered. It never removes the entry. |
| `JobQueue.CompletionAfterTimeout` | src/processor-queue/queue.js:117-142 | A completion after the timeout still deletes the entry and counts a completion. The caller keeps the timeout rejection. |
| `JobQueue.PublishFailureKeepsEntry` | src/processor-queue/queue.js:122-126 | A failed publish rejects the push with the transport's error and leaves the id registered. |
| `JobQueue.StepKeepsSettled` | src/processor-queue/queue.js:109 | No single event changes a settled push's outcome. |
| `JobQueue.SettledIsFinal` | src/processor-queue/queue.js:109-126 | Each push settles at most once: no sequence of later events changes its outcome. |
| `JobQueue.WhatSettlesATicket` | src/processor-queue/queue.js:116-149 | Only four things settle a pending push: its own publish failure, its own timer while its id is registered, or a completion or failure for an id mapped to this very push. |
| `JobQueue.RunPreservesGood` | src/processor-queue/queue.js:116-147 | When callers keep ids unique among outstanding jobs, every registered pending push is the one its id maps to. A push whose timer has fired is settled. |
| `JobQueue.DuplicateIdStrandsFirstPush` | src/processor-queue/queue.js:116-139 | Without unique ids, a second push of the same id overwrites the entry, and the completion for that id resolves the second push only. Once the first push's publish has gone through and its timer has fired, it is still pending, and nothing points at it any more. |
| `JobQueue.StrandedIsForever` | src/processor-queue/queue.js:116-149 | A pending push whose publish has settled, whose timer has fired and that no registry entry points at stays pending after any further events. |
| `JobQueue.FirstPushNeverAnswered` | src/processor-queue/queue.js:116-149 | So in the duplicate-id run the first caller's promise never settles, whatever happens afterwards. |
| `JobQueue.OnlyNotificationsRemoveEntries` | src/processor-queue/queue.js:116-147 | An id leaves the registry only through a completion or failure notification carrying that id. |
| `JobQueue.EntriesStayWithoutNotifications` | src/processor-queue/queue.js:116-126 | Without notifications, the registry never loses an entry. |
| `JobQueue.FailedPublishLeavesStaleEntry` | src/processor-queue/queue.js:116-126 | A push whose publish fails and whose timer then fires has been rejected, yet its id is still registered. |
| `JobQueue.EvictingRegistryHoldsOnlyPending` | src/processor-queue/queue.js:116-126 | With eviction on publish failure and timeout, the registry holds only pending pushes. Once all pushes are answered it is empty. |
| `JobQueue.EvictingFailedPublishFreesEntry` | src/processor-queue/queue.js:116-126 | With eviction, the same failed publish rejects the caller the same way and frees the id. |
| `ProcessorQueue.DefaultCeilingIs200MiB` | src/processor-queue/index.js:5-23 | Without a (non-zero) `maxMessageMem` the ceiling is 209715200 bytes (200 MiB), a tenth of 2000 MiB. A configured value wins. |
| `ProcessorQueue.Step` | src/processor-queue/index.js:28-47 | A `process` call adds one call and nothing else does. A finished call never changes, and the ceiling never changes. `_mem` moves only by a call's own size: up when the memory guard admits it while `_mem <= maxMessageMem`, down when that call finishes. `RunKeepsBalance` states the accounting over whole runs. |
| `ProcessorQueue.MemoryGuard` | src/processor-queue/index.js:32-38 | A waiting call may go on exactly when `_mem <= maxMessageMem`, whatever its own size. Going on charges exactly the job's size. |
| `ProcessorQueue.SolitaryOversizedJobIsAdmitted` | src/processor-queue/index.js:34-38 | A job larger than the ceiling is admitted when the counter is 0, and the counter then exceeds the ceiling. |
| `ProcessorQueue.ConstructionFailureLeavesCounter` | src/processor-queue/index.js:29-46 | A job that cannot be built leaves `_mem` unchanged, and the call rejects with the construction error. |
| `ProcessorQueue.MessageFailureReleases` | src/processor-queue/index.js:39-46 | A failing `msg()` after the charge subtracts the size once and rejects with the same error. |
| `ProcessorQueue.PushSettlementReleases` | src/processor-queue/index.js:40-46 | When the push settles, the size is subtracted once and the call ends with the queue's result or error, unchanged. |
| `ProcessorQueue.RunKeepsBalance` | src/processor-queue/index.js:28-47 | Under any interleaving, `_mem` equals its start value plus the sizes of the calls between charge and release. |
| `ProcessorQueue.SettledCallsRestoreCounter` | src/processor-queue/index.js:28-47 | Calls that have all settled leave `_mem` where it was before them: the net change per call is zero. |
| `ProcessorQueue.SettledCallsReleaseEverything` | src/processor-queue/index.js:22-47 | From a fresh processor queue, `_mem` is 0 whenever no call holds a charge. |
| `GoogleFunctions.SubscriptionDeadlineDefaults` | src/processor-queue/implementations/google-functions/index.js:30 | The ack deadline is the number when `DEADLINE_SECONDS` holds the decimal form of a non-zero number. It is 200 when the variable is unset or empty, for every string without a digit, and for every run of zeros. |
| `GoogleFunctions.NewSettings` | src/processor-queue/implementations/google-functions/index.js:19-31 | The size threshold is the configured value, or 5 MiB when none (or 0) is given. The deadline follows `DEADLINE_SECONDS`. |
| `GoogleFunctions.Publish` | src/processor-queue/implementations/google-functions/index.js:72-83 | A message goes to the worker topic iff its size is strictly below the threshold. Otherwise it goes to object `event-<id>` in the worker bucket, as base64 text. |
| `GoogleFunctions.DefaultThresholdBoundary` | src/processor-queue/implementations/google-functions/index.js:73-81 | With the default threshold, a message of exactly 5 MiB is stored and one byte less is published. |
| `GoogleFunctions.Subscribe` | src/processor-queue/implementations/google-functions/index.js:68-70 | `subscribe` appends the handler after the existing ones. |
| `GoogleFunctions.Rehydrate` | src/processor-queue/implementations/google-functions/index.js:87-95 | Rehydration throws exactly for a message that decoded to `undefined`/`null` and for a failed fetch of a stored payload. Without a stored payload the message is unchanged; with one, it is an object holding the fetched `payload` and no `storedPayload`. |
| `GoogleFunctions.RehydrateReplacesPayload` | src/processor-queue/implementations/google-functions/index.js:88-95 | A message with a stored payload gets the fetched content as `payload` and loses `storedPayload`. Every other field is unchanged. |
| `GoogleFunctions.RehydrateKeepsPlainMessage` | src/processor-queue/implementations/google-functions/index.js:88 | A message without a stored payload is delivered as decoded. |
| `GoogleFunctions.Broadcast` | src/processor-queue/implementations/google-functions/index.js:96 | The handlers called are a prefix of the subscribers, in order, each given the message. All of them are called when none throws. When one throws, it is the last one called, its error is what is thrown, and every handler before it returned normally. |
| `GoogleFunctions.BroadcastReachesEveryHandler` | src/processor-queue/implementations/google-functions/index.js:96 | When no handler throws, each handler receives the message exactly once, in registration order. |
| `GoogleFunctions.BroadcastStopsAtFirstThrow` | src/processor-queue/implementations/google-functions/index.js:96 | The first handler that throws has been called, and the handlers after it are not. |
| `GoogleFunctions.HandleMessage` | src/processor-queue/implementations/google-functions/index.js:85-97 | The ack always comes first. After it come deliveries to a prefix of the subscribers, in subscription order. Data that does not decode is acked and its decoding error is thrown. |
| `GoogleFunctions.AckBeforeDecode` | src/processor-queue/implementations/google-functions/index.js:85-87 | The ack is the first effect, even when decoding or the fetch fails. A message that does not decode reaches no handler. |
| `GoogleFunctions.EveryMessageReachesEverySubscriber` | src/processor-queue/implementations/google-functions/index.js:85-97 | A decoded message is acked, then delivered, rehydrated, to every subscriber in order. |
| `Build.Lookup` | src/build.js:34-35 | A name passes the whitelist exactly when it is a registered processor or a property every object inherits. |
| `Build.PathJoin` | src/build.js:49 | Joining throws a TypeError exactly when the output path is not a string. |
| `Build.FilterExisting` | src/build.js:48-50 | Filtering throws only TypeErrors and keeps at most the operations it was given. |
| `Build.FilterAcceptsWellFormed` | src/build.js:48-50 | Operations that are objects with a string `outputPath` never make the filter throw. |
| `Build.CheckExistingOutputs` | src/build.js:47-54 | The output check can only throw when the output directory exists, and then only a TypeError. |
| `Build.MessageHandler` | src/build.js:24-91 | One message gets at most one reply, and no processor is handed a payload. A reply is sent exactly for a `JOB_CREATED` message with a payload. The handler throws exactly for an `undefined`/`null` message and for `JOB_CREATED` without a payload. Every other message does nothing. |
| `Build.JobCreatedHandler` | src/build.js:33-82 | A missing payload makes the case throw the property-read error before anything is sent. A present payload gets exactly one reply, and no throw. The reply is `JOB_NOT_WHITELISTED` with the id exactly when the name is neither registered nor inherited. |
| `Build.OneReplyPerCreatedJob` | src/build.js:33-82 | A `JOB_CREATED` message with a payload gets exactly one reply, of kind `JOB_NOT_WHITELISTED`, `JOB_COMPLETED` or `JOB_FAILED`. The handler does not throw. |
| `Build.UnknownProcessorIsNotWhitelisted` | src/build.js:34-41 | A job with an unknown processor name gets exactly `JOB_NOT_WHITELISTED` with its id. |
| `Build.WhitelistedJobGetsItsOperations` | src/build.js:42-74 | A whitelisted job with arguments is answered `JOB_COMPLETED` with `result = args.operations`, unless the output check throws. The check cannot throw when the directory is absent or the operations are well-formed. |
| `Build.FailuresInsideTryFailTheJob` | src/build.js:42-81 | For a whitelisted job, an exception from the output check, or from reading `operations` of missing `args`, is answered `JOB_FAILED` with the id and that error's string form. The reply is `JOB_FAILED` exactly when one of these happens. |
| `Build.MissingArgumentsFailTheJob` | src/build.js:44-81 | One instance: a whitelisted job with no `args` and no existing output directory fails with the text of the TypeError for reading `operations` of `undefined`. |
| `Build.ProcessorsAreNeverCalled` | src/build.js:45-56 | `toProcess` is never true: no processor is called, and the replies depend only on which names are registered. |
| `Build.OutputCheckIrrelevantForWellFormedJobs` | src/build.js:47-54 | With well-formed operations, the reply does not depend on which files exist. |
| `Build.OutputCheckCanChangeReply` | src/build.js:47-74 | A job without operations is answered `JOB_COMPLETED` when its output directory is missing and `JOB_FAILED` when it exists. |
| `Build.InheritedNameIsWhitelisted` | src/build.js:34-35 | A job named `constructor` passes the whitelist without a registered processor. |
| `Build.OtherMessagesAreIgnored` | src/build.js:84-88 | `LOG_ACTION` and every other type send nothing. An `undefined`/`null` message throws before sending. |

## Left out

- Real time and polling: the `sleep`/`until` loops, the 2-second ticks and the timer durations. The guards are enabling conditions of events, and a timer firing is an event that can happen at any time after registration. Whether a wait ends (liveness) is not modelled.
- The global `waitTime` that `until` in queue.js shares across calls. It only feeds log messages.
- Scheduling between a guard and the charge or registration that follows it. In the model, admission and charge happen in one step.
- Google Cloud setup, which is foreign I/O: the clients, topic, bucket and subscription creation, the lifecycle rules, the `.cache` marker and the promise-returning constructor. The worker topic and bucket names are inputs, because the helpers that compute them are not part of this model.
- The download of a stored payload (to `/tmp`, read, parse, remove) is a parameter of `GoogleFunctions.Rehydrate`. JSON decoding of inbound data is a parameter of `GoogleFunctions.HandleMessage`. What each handler throws is a parameter too.
- `fs.stat`, `fs.readFile` and `fs.existsSync` are a snapshot of the disk (`Jobs.FileSystem`, a set of existing paths). JSON serialisation and base64 encoding are records. `path.join` normalisation is not modelled. `fs.existsSync` of a Buffer path is treated as false.
- `build()`: processor resolution, `fork`, exit handling, environment setup. The processors are a parameter of `Build.MessageHandler`.
- Logging, including the trace-level `JSON.stringify` of each message in `messageHandler`. The log level is treated as not TRACE. Reading `msg.type` throws in either case.
- Numbers are integers: NaN, fractions and the 2^53 limit of JavaScript numbers are not modelled. NaN from `parseInt` is `None`.
- Registry keys are JavaScript values compared structurally. A real `Map` compares objects by identity, and ids are strings or numbers in practice.
- The wording of engine error messages is approximate. The model keeps that they are TypeErrors and which property was read.
- How an id is formatted inside `Job timed out <id>` and `event-<id>` follows `JsValue.ToString`. That covers strings, numbers and plain objects, but not symbols or custom `toString` methods.
- `JobQueue.RunPreservesWellFormed`, `JobQueue.RegistryReaches601`: the bound of 601 entries relies on the depth guard and the registration being one step. In the source, pushes waiting in the same tick can all pass the guard before any of them registers, so the registry can exceed 601 entries.
- `JsValue.ToString`: a Buffer's string form takes each byte as one character (Latin-1). JavaScript decodes the bytes as UTF-8. Buffers reach the string form only as ids or paths, which are strings in practice.
- Wiring: a `ProcessorQueue` feeding its `Queue`, the queue subscribing to the transport, and the host calling `process`. The push's outcome is an event in `ProcessorQueue`, and a notification is an event in `JobQueue`.

## Findings

| source | as written | input that shows it | evidently intended | confidence | as-written member | corrected member |
|---|---|---|---|---|---|---|
| src/processor-queue/queue.js:116-126 | A timeout or a failed publish rejects the caller but leaves the id in `_jobs`. Only a worker notification removes it, so stale entries pile up and count against the 600-entry depth guard. | One `push` whose `publish` rejects, followed by its timer: the caller is rejected, yet `_jobs` still maps the id. 601 such pushes with no worker reply close the depth guard for good. | The entry is removed when the push is rejected by its timer or by a failed publish, so only outstanding jobs count against the depth limit. | medium, not executed | `JobQueue.FailedPublishLeavesStaleEntry` | `JobQueue.EvictingRegistryHoldsOnlyPending` |
