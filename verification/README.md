# SnapDeploy log ingestion, modelled in Dafny

This project models the log-ingestion path of SnapDeploy's API server
(`api-server/services/kafka.service.js`) and two pure pieces of the profile
page (`frontend/src/pages/Profile.jsx`).

On the server, the consumer of the `container-logs` topic works like this. For
each message in a batch, it parses the payload into a `logData` record with a
fresh `event_id` and tries to write it to the log store. If the write fails, it
parks the record in an in-memory retry buffer. That buffer is bounded by
`MAX_FAILED_MESSAGES = 1000`. For every message the loop reaches that has a
value, whatever the outcome, it resolves and commits the message's offset. A 30-second timer drains the buffer: it takes at most 10
events off the head, retries each one, and puts failures back at the tail while
there is room. If connecting, subscribing or starting the consumer throws, one
new startup attempt is scheduled 30 seconds after the failure, with no limit
on retries.

Every step is a pure function. The retry buffer is an immutable `seq`. The
outside world enters as oracles:

- the decoder, an abstract partial function `Bytes -> Option<Payload>`;
- a per-message `Env`, holding the fresh id and whether the sink write, the
  commit, the heartbeat and the parse-error handler's commit succeed;
- a per-event success flag for each drain retry;
- for each startup attempt, success or the time it took to fail.

Modules:

- `Common`: `Option` and `Min`.
- `RetryBuffer`: the event record, the guarded push `Offer`, and the reference
  definition `Fill` (push as many as fit). It also holds the `Push`/`Splice`
  operations through which any interleaving of producer and drain acts on the
  shared buffer.
- `DrainScheduler`: `processFailedMessages`.
- `BatchConsumer`: the `eachBatch` loop, with the broker control calls as a
  call log.
- `ReconnectSupervisor`: the `Running` / `Reconnecting` machine.
- `IngestionPipeline`: batches and drain ticks on one timeline.
- `ProfileForm`: photo guards, the changed-field diff, and form defaulting.

Behaviour of the code as written that the model keeps:

- The success path's commit and heartbeat are inside the same `try` as the
  parse. If either throws, the parse-error handler runs. That handler resolves
  and commits the same offset again, so it is committed twice.
  `BatchConsumer.HeartbeatFailureCommitsTwice` shows this. Exactly-once commit
  is therefore proved only when the broker answers every control call. If the
  handler's own commit throws, the error leaves `eachBatch` and the rest of the
  batch is not processed.
- A message with a null value is never resolved or committed. Its
  `toString()` throws into the parse-error handler, and that handler logs
  `message.value.toString()` again before resolving, which throws a second
  time and leaves `eachBatch`. The rest of the batch is not processed
  (`BatchConsumer.NullValueEndsBatch`). The commit-order and protocol lemmas
  therefore speak about the messages before the first null value.
- The log lines after the sink write interpolate `DEPLOYMENT_ID` into a
  template literal. If that value cannot be converted to a string (a JSON
  object whose own `toString` is not a function, say), the success log throws,
  and so does the sink-failure log before the guarded push. The error reaches
  the parse-error handler, which resolves and commits the offset once. Such a
  record is written to the sink but never buffered, even when the write fails,
  and gets no heartbeat (`BatchConsumer.UnprintableDeploymentIdIsNeverBuffered`).
- The drain logs `deployment_id` after a successful retry, inside the same
  `try` as the write (kafka.service.js:54-56). That line would throw, and push
  the event back, only for a value whose string conversion throws. No such
  event is ever buffered, because the sink-failure log in the batch loop
  interpolates the same value before the push. So every buffered event stays
  printable over any history (`IngestionPipeline.RunKeepsPrintable`), and the
  drain model ends a retry at a successful write.
- A retried event keeps its original `event_id`, because the same record is
  re-sent. The id therefore identifies the event across its attempts, not
  each attempt.
- Nothing checks that `DEPLOYMENT_ID` is present or non-empty.
  `IngestionPipeline.MissingDeploymentIdIsBuffered` shows a record without it
  being buffered.
- A drain running on its own never drops a failed event. The splice has already
  freed the room that re-appending needs (`DrainScheduler.DrainEffect`).
  Failed retries can only be lost when batch pushes interleave with a drain;
  the bound still holds for every such interleaving.
- On the profile page, a missing or null user property is filled into the form
  as `""`. It is then compared with `!==` against the missing value, so saving
  an unedited form still sends `""` for that property
  (`ProfileForm.UnsetPropertyIsSentAsEmpty`).

## Model

| member | source | states |
|---|---|---|
| RetryBuffer.Offer | api-server/services/kafka.service.js:111-120 | Existing events keep their place. The event is appended at the tail exactly when the buffer holds fewer than 1000. At capacity the push is a silent no-op, and the bound is kept. |
| RetryBuffer.OfferAllIsFill | api-server/services/kafka.service.js:59-62 | A run of guarded pushes equals the reference "append as many as fit below 1000, drop the rest". |
| RetryBuffer.InterleavingKeepsBound | api-server/services/kafka.service.js:40-42 | Any interleaving of guarded pushes and head splices on the shared buffer keeps it within 1000. |
| DrainScheduler.Drain | api-server/services/kafka.service.js:45-65 | Draining an empty buffer changes nothing. The events retried are the first min(10, n), in FIFO order and unchanged (same ids). The remainder stays at the head in order, and the bound is kept. |
| DrainScheduler.RetryAllFills | api-server/services/kafka.service.js:51-64 | The retry loop equals offering the failed events, in order, to the buffer left after the splice. |
| DrainScheduler.DrainEffect | api-server/services/kafka.service.js:49-63 | After a drain, the buffer is the remainder followed by the failed retries as far as capacity allows. Within the bound nothing is dropped: the result is exactly remainder + failures. |
| DrainScheduler.DrainAllSucceed | api-server/services/kafka.service.js:51-56 | Successful retries are not put back. If all succeed, exactly the head min(10, n) events are removed. |
| DrainScheduler.DrainAllFail | api-server/services/kafka.service.js:57-62 | If every retry fails, the head moves behind the remainder (a rotation). |
| DrainScheduler.DrainNoDuplicates | api-server/services/kafka.service.js:49-62 | A drain never duplicates an event: the result is a sub-multiset of the buffer before. |
| DrainScheduler.DrainKeepsIdsDistinct | api-server/services/kafka.service.js:49-62 | Pairwise distinct event ids stay distinct across a drain. |
| DrainScheduler.DrainKeepsPrintable | api-server/services/kafka.service.js:49-62 | A drain only keeps or re-adds events that were buffered, so if every buffered deployment_id is printable, it still is afterwards. |
| DrainScheduler.DrainAsQueueOps | api-server/services/kafka.service.js:49-62 | A drain is one head splice followed by one guarded push per failed retry. |
| BatchConsumer.ParseErrorHandler | api-server/services/kafka.service.js:127-140 | The handler never writes or touches the buffer. For a null value, its log line throws before any broker call and the batch ends. Otherwise it issues exactly one resolve and one commit of the offset, and the batch ends exactly when that commit throws. |
| BatchConsumer.ProcessMessage | api-server/services/kafka.service.js:86-141 | A null value issues no call, writes nothing and ends the batch. Every other path first resolves and then commits the message's own offset. A heartbeat appears only after a successful parse with a printable DEPLOYMENT_ID. An unparsable payload reaches neither sink nor buffer. A parsed one is written once, as a record with the fresh id and DEPLOYMENT_ID, log and status copied. A successful write leaves the buffer unchanged. A failed one is offered to it when DEPLOYMENT_ID is printable. When DEPLOYMENT_ID cannot be converted to a string, the buffer is untouched and only the handler's resolve and commit are issued. With all broker calls answered, a message with a value follows the protocol and does not abort: resolve, commit, and a heartbeat exactly when parsed with a printable DEPLOYMENT_ID. |
| BatchConsumer.ProcessBatch | api-server/services/kafka.service.js:77-142 | A batch only appends to the buffer, at most one event per message, and keeps the 1000 bound. At most one sink write per message. |
| BatchConsumer.MessageFaultFree | api-server/services/kafka.service.js:87-140 | With the broker answering, one message with a value issues the protocol calls and writes its parsed record. It changes the buffer only by offering that record, and only when the write failed and DEPLOYMENT_ID is printable. |
| BatchConsumer.BatchFaultFree | api-server/services/kafka.service.js:86-141 | With the broker answering, a batch runs up to its first null-valued message and ends there exactly when there is one. Up to that point it issues the concatenated per-message protocol and writes every parsed record once, in message order. The buffer becomes the old buffer filled with exactly the records whose write failed and whose DEPLOYMENT_ID is printable. |
| BatchConsumer.CommitsInMessageOrder | api-server/services/kafka.service.js:123-139 | With the broker answering, the resolved offsets and the committed offsets each equal the offsets before the first null-valued message, in message order, one per message, on all three paths. With no null value that is the whole batch. |
| BatchConsumer.NullValueEndsBatch | api-server/services/kafka.service.js:127-135 | A null-valued message issues no resolve and no commit, leaves the buffer alone, and ends the batch whatever follows. |
| BatchConsumer.UnprintableDeploymentIdIsNeverBuffered | api-server/services/kafka.service.js:99-140 | A parsed payload whose DEPLOYMENT_ID cannot be converted to a string is written to the sink, but the buffer stays unchanged even when the write fails. It gets no heartbeat, and its offset is resolved and committed exactly once. |
| BatchConsumer.ProcessBatchKeepsPrintable | api-server/services/kafka.service.js:104-120 | A record is pushed only after its DEPLOYMENT_ID was interpolated into the sink-failure log, so a batch keeps every buffered deployment_id printable. |
| BatchConsumer.HeartbeatFailureCommitsTwice | api-server/services/kafka.service.js:123-140 | A heartbeat that throws after a parsed message with a printable DEPLOYMENT_ID makes the parse-error handler resolve and commit the same offset a second time. |
| BatchConsumer.BatchKeepsIdsDistinct | api-server/services/kafka.service.js:92-112 | If the ids from `uuidv4` are fresh, no event id is ever buffered twice, whatever the sink and broker answer. |
| ReconnectSupervisor.Attempt | api-server/services/kafka.service.js:144-153 | A startup attempt reaches Running exactly when it succeeds. A failure is never terminal: it leaves exactly one retry pending, 30000 ms after the failure. |
| ReconnectSupervisor.OnTimer | api-server/services/kafka.service.js:149-152 | Firing the pending timer re-runs the whole startup. The result is Running exactly when it was already running or the retry succeeds. A failed retry leaves exactly one new retry pending, 30000 ms after that retry failed, so never sooner than 30000 ms after the previous one was due. |
| ReconnectSupervisor.Supervise | api-server/services/kafka.service.js:144-153 | Each retry starts exactly 30000 ms after the previous attempt failed, so attempts are at least 30000 ms apart, with no backoff and no cap. The supervisor reaches Running exactly when some attempt succeeds, right after the first success. Otherwise every result was an attempt and one more is pending, 30000 ms after the last failure. |
| ReconnectSupervisor.ConnectFailsThenRecovers | api-server/services/kafka.service.js:144-153 | A first connect that fails after d ms, followed by a good one, is Running after attempts at t and t + d + 30000. |
| IngestionPipeline.RunKeepsBound | api-server/services/kafka.service.js:40-68 | Over any history of batches and drain ticks, a buffer that starts within 1000 stays within 1000. |
| IngestionPipeline.RunKeepsPrintable | api-server/services/kafka.service.js:40-64 | Over any history of batches and drain ticks, a buffer whose deployment_ids are all printable stays so. The log line after a successful drain retry (:54-56) therefore never throws on a buffer the program can reach. |
| IngestionPipeline.FullBufferDropsNewFailures | api-server/services/kafka.service.js:111-120 | A buffer holding 1000 events is unchanged by any batch: new failures are dropped. |
| IngestionPipeline.SinkOutageThenRecovery | api-server/services/kafka.service.js:99-125 | A parsed message whose write fails is buffered and its offset committed. The next drain, with the sink back, writes that record and empties the buffer. |
| IngestionPipeline.MissingDeploymentIdIsBuffered | api-server/services/kafka.service.js:89-112 | A payload without DEPLOYMENT_ID still yields a record, and on a failed write that record is buffered. |
| ProfileForm.CheckPhoto | frontend/src/pages/Profile.jsx:63-77 | No file gives no action. A type not starting with "image/" is rejected with the type message, whatever the size (type is checked first). An image over 5·1024·1024 bytes is rejected with the size message. Otherwise the selected file is accepted. |
| ProfileForm.PhotoSizeBoundary | frontend/src/pages/Profile.jsx:73-77 | Exactly 5 MiB is accepted and one byte more is rejected (strict `>`). An oversize non-image reports the type error. |
| ProfileForm.PhotoUpload | frontend/src/pages/Profile.jsx:63-81 | No file leaves the state untouched. A rejected file only sets the error and uploads nothing. An upload happens exactly for an accepted file, which is the selected one, with the error cleared. |
| ProfileForm.FillForm | frontend/src/pages/Profile.jsx:50-54 | Each string property is copied into the form; a missing or null one becomes "". |
| ProfileForm.FetchUser | frontend/src/pages/Profile.jsx:37-59 | A fetched user is stored and the form is filled from it. A failed request keeps user and form and reports "Failed to fetch user data". A null body is stored and then reported as a failure. |
| ProfileForm.CancelEdit | frontend/src/pages/Profile.jsx:151-159 | Cancel refills the form from the user, leaves editing and clears the error. Without a user it throws before any state change. |
| ProfileForm.ChangedFields | frontend/src/pages/Profile.jsx:116-122 | A key among fullName, username, email is in `updates` exactly when the form value strictly differs from the user's, and it carries the form value. |
| ProfileForm.SaveDetails | frontend/src/pages/Profile.jsx:109-127 | A request carries exactly the changed fields and is never empty. If nothing changed, no request is made, editing is left and the error cleared. Without a user the generic failure message is set. |
| ProfileForm.FillThenSaveSendsNothing | frontend/src/pages/Profile.jsx:116-127 | Round trip: after a fetch or a cancel fills the form from a user whose properties are all strings, saving the unedited form sends no request, and after a cancel editing is left. |
| ProfileForm.UnsetPropertyIsSentAsEmpty | frontend/src/pages/Profile.jsx:116-122 | A missing or null property, filled as "" and saved unedited, is still sent as "". |

## Left out

- Kafka client and consumer construction, TLS/SASL settings and writing the certificate file (kafka.service.js:8-38): configuration and file I/O.
- `insertLogEvent`: an external store call, modelled only as a success/failure answer. `clickhouse.service.js` is not part of this model.
- How long a startup attempt takes to fail, which depends on the client's connection timeout, request timeout and retry settings: it is an oracle value per attempt.
- The timers themselves: the `setInterval` period of the drain, the real firing of the reconnect `setTimeout` (its 30000 ms delay is modelled as a due time), and interleaving at `await` points inside one batch or drain. Each batch and each drain is one atomic step. Interleavings are covered only at the level of single pushes and splices (`RetryBuffer.InterleavingKeepsBound`).
- `uuidv4`: foreign randomness, replaced by a per-message id oracle. Freshness is an assumption (`BatchConsumer.FreshIds`).
- UTF-8 decoding, `JSON.parse` and destructuring: one abstract partial decoder. A present property is kept as its JSON text, tagged with whether converting it to a string throws.
- What kafkajs does with `resolveOffset`, `commitOffsetsIfNecessary` and `heartbeat`. The model records the calls issued, not whether the broker's committed position moves.
- Console logging throughout both files.
- `DrainScheduler.Drain`: the log line after a successful retry (kafka.service.js:54-56) is taken not to throw. That holds for every buffer the program can reach (`IngestionPipeline.RunKeepsPrintable`), but not for an arbitrary queue with an unprintable `deployment_id` handed to `Drain`.
- `BatchConsumer.CommitsInMessageOrder`: proved only when every broker control call succeeds, and it covers only the messages before the first null value. A throwing commit or heartbeat makes the code commit the offset twice (`BatchConsumer.HeartbeatFailureCommitsTwice`).
- Axios, Cookies, FormData, the upload and update responses, the `loading`/`uploading`/`updating`/`success` flags and all rendering in Profile.jsx, Dashboard.jsx, Layout.jsx and HomePage.jsx: network and UI glue.
- Non-string user properties on the profile page: user properties are taken to be strings, missing or null. `x || ""` would also turn `0`, `false` and `NaN` into `""` and copy any other truthy non-string into the form unchanged.
- `formatDate` in Profile.jsx (locale-dependent dates) and `formatNumber` in Dashboard.jsx (floating point).
- `getDefaultStats` and `frontend/tailwind.config.js`: constant data and styling.
