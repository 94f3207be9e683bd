# Traffic pipeline bookkeeping — a Dafny model

This project models the three sequential pieces of logic inside the traffic-analytics
pipeline (Komu12ee/traffic-system) and proves what they promise:

- **The ingest server's event store** (`src/dashboard/backend/api_server.py`). The store is a
  queue bounded to 10 events. `POST /update` appends the posted event, evicting the oldest
  when 10 are held, and answers `{"status": "ok"}` with 200. `GET /latest` answers with the
  newest event, or `{}` with 200 while the store is empty. `ApiServer.IngestServer` holds the
  queue as a sequence field and updates it in place. A ghost field records every event ever
  posted, and the class invariant says that the queue is always the last
  min(n, 10) of them. `ApiServer.Replay` folds a sequence of requests into a queue, so that
  properties of request sequences can be stated: reads never affect eviction, and a store
  that holds an event never becomes empty again.
- **The per-frame bookkeeping of the inference loop** (`src/inference/inference_engine.py`).
  `Detections.DetectionsToJson` is the loop of `_detections_to_json`. It keeps the boxes
  whose confidence is at least the threshold, in index order. It writes track id -1 when the
  tracker gave no ids, and it looks up the class name in the model's name table; a class id
  missing from that table raises. `InferenceEngine.Engine` holds the frame counter and the
  queue of tasks handed to the single background sender. `ProcessFrame` is one iteration
  of the loop, `ProcessFrames` is the loop, and `Run` reads the backend settings from the
  environment and runs the loop. Every processed frame advances the counter by one.
  Exactly the frames whose id is a multiple of 8 and whose conversion succeeds submit a
  task; a due frame whose conversion raises ends the loop without submitting. The task carries the
  **full** payload (`output`), as the code does, not the light one.
- **The log mailer** (`src/utils/emailer.py`). `Emailer.TailFile` is `_tail_file`: it keeps
  the last `max_lines` lines through a bounded queue. `Emailer.Decide` chooses between a
  notification, the whole file and the file's tail. `Emailer.SendLog` follows `send_log`
  step by step. It sends a notification without attachment when the file is missing. It
  truncates exactly when the size is strictly above the limit, and then the body carries
  the truncation note. The temporary copy exists only when truncating, and the `finally`
  removes it whether or not the SMTP exchange raised.

Both bounded queues (the event store and the log tail) share `BoundedDeque`.
`BoundedDeque.Window` is the reference meaning of a queue bounded to `maxlen` after it has
received `s`: the last min(|s|, maxlen) elements of `s`. `BoundedDeque.Push` is one append
to such a queue.

On these points the model follows the code as written:
- The loop submits `output`, the full payload (src/inference/inference_engine.py:226),
  although its own comment at line 212 labels `light_output` as the backend payload.
- A post that gets an answer is never logged, whatever its status. `requests.post` raises
  on a transport failure or a timeout, and also before sending on a malformed URL or on a
  payload it cannot encode as JSON. Only a raised exception produces the warning
  (lines 103-106).
- The counter is incremented before the rate-limit test (lines 162 and 222). The first
  frame therefore has id 1, and the first send is at frame 8, then 16, ….

The collaborators are inputs. For each frame, `InferenceEngine.FrameInput` carries the
tracker's boxes, the FPS figure, the traffic metrics and the alerts. For the mailer, the
existence, size and lines of the log file, the environment values and the success of the
SMTP exchange are parameters.

## Temporary file left behind on a negative tail length

When `EMAIL_TAIL_LINES` is negative and the log is over the limit, `_tail_file` has already
created its temporary file when the bounded queue raises. The raise happens before the
`try` whose `finally` removes the file, so the file is left behind. `SendLog` models this
path as written: it reports the file as created and not removed.

## Model

| member | source | states |
|---|---|---|
| `BoundedDeque.Window` | src/dashboard/backend/api_server.py:23 | a queue bounded to `maxlen` that received `s` holds min(n, maxlen) elements, where n is the length of `s`, and they are the last ones of `s` in their original order |
| `BoundedDeque.Push` | src/dashboard/backend/api_server.py:32 | one append never exceeds the bound; with a positive bound the appended element becomes the newest and the older elements are kept in order, minus the oldest when the queue was full; a queue bounded by 0 stays empty |
| `BoundedDeque.PushWindow` | src/dashboard/backend/api_server.py:23-32 | one append to a queue bounded to `maxlen` that holds the last `maxlen` elements of `s` leaves the last `maxlen` elements of `s + [x]`: the oldest is evicted first |
| `BoundedDeque.PushAllWindow` | src/utils/emailer.py:27 | appending e1..en to such a queue leaves the window of the whole history `s + [e1..en]` |
| `BoundedDeque.PushAllFromEmpty` | src/dashboard/backend/api_server.py:23 | from an empty queue, appending e1..en leaves exactly the last min(n, maxlen) of them in insertion order |
| `ApiServer.LatestOf` | src/dashboard/backend/api_server.py:37-43 | the answer to `GET /latest` is `{}` exactly when the store is empty, otherwise the newest stored event, and never the status object |
| `ApiServer.IngestServer.constructor` | src/dashboard/backend/api_server.py:23 | the store starts empty with nothing received |
| `ApiServer.IngestServer.Update` | src/dashboard/backend/api_server.py:27-34 | the posted event is appended with eviction of the oldest; the store stays the last 10 events received, holds at most 10, is non-empty, its newest event is the posted one, and the answer is `{"status": "ok"}` with 200 |
| `ApiServer.IngestServer.Latest` | src/dashboard/backend/api_server.py:37-43 | always status 200; `{}` when nothing was posted yet, otherwise the most recently posted event; the store is not modified |
| `ApiServer.Replay` | src/dashboard/backend/api_server.py:23 | serving any sequence of requests keeps the store at no more than 10 events |
| `ApiServer.ReplayIgnoresReads` | src/dashboard/backend/api_server.py:27-43 | serving a sequence of requests is exactly appending its posted events: reads do not affect the contents or eviction |
| `ApiServer.ReplayKeepsLastPosted` | src/dashboard/backend/api_server.py:23-43 | from the empty store, after any requests the store holds exactly the last min(n, 10) posted events, oldest first |
| `ApiServer.ReplayStaysNonEmpty` | src/dashboard/backend/api_server.py:27-43 | once the store holds an event, no sequence of requests empties it |
| `ApiServer.LatestAfterUpdate` | src/dashboard/backend/api_server.py:32-43 | after any requests ending in a post of `e`, `GET /latest` answers `e` |
| `Detections.KeptIndices` | src/inference/inference_engine.py:128-131 | the kept indices are strictly increasing, each has confidence at least the threshold, every index with such a confidence is among them, and there are at most as many as boxes |
| `Detections.KeptIff` | src/inference/inference_engine.py:130-131 | a box is kept exactly when its confidence is at least the threshold; a confidence equal to the threshold is kept |
| `Detections.ToJson` | src/inference/inference_engine.py:120-146 | the conversion raises only with a class id the model has no name for, and never returns more records than there are boxes; `ToJsonSpec` states the rest |
| `Detections.ToJsonUpToRecords` | src/inference/inference_engine.py:128-146 | when every kept box has a named class the conversion succeeds with one record per kept box, in index order |
| `Detections.ToJsonUpToFails` | src/inference/inference_engine.py:133-141 | when a kept box has an unnamed class the conversion raises with the class of the first such box |
| `Detections.ToJsonSpec` | src/inference/inference_engine.py:120-146 | success exactly when all kept classes are named; then the output has one record per box with confidence at least the threshold, in index order, no more than the boxes, track id -1 without tracker ids and the box's id otherwise, class id and class name `names[class_id]`, and the box's confidence and corners; otherwise the error is the class of the first kept box without a name |
| `Detections.DetectionsToJson` | src/inference/inference_engine.py:120-146 | the loop computes exactly the conversion `ToJson` characterised above |
| `InferenceEngine.BackendUrl` | src/inference/inference_engine.py:154-157 | the collector URL is `BACKEND_URL` when set, the hosted `/update` endpoint otherwise |
| `InferenceEngine.BackendTimeout` | src/inference/inference_engine.py:158 | the send timeout is `BACKEND_TIMEOUT` when set, 2 seconds otherwise |
| `InferenceEngine.AssemblePayloads` | src/inference/inference_engine.py:204-217 | the full payload carries the detections with `num_detections` equal to their number; the light payload has only FPS, metrics and alerts, equal to the full one's |
| `InferenceEngine.FrameOutput` | src/inference/inference_engine.py:177-210 | a frame's output exists exactly when its conversion succeeds; it is then the full payload with the converted detections, their number as `num_detections`, and the frame's FPS, metrics and alerts; otherwise it is the conversion's error |
| `InferenceEngine.ShouldSend` | src/inference/inference_engine.py:222 | a frame is due exactly when its id is a multiple of 8; after a due frame, the next frame is not due and the frame 8 later is |
| `InferenceEngine.MultiplesBetweenExact` | src/inference/inference_engine.py:222 | the due frame ids of a range are exactly the ids in that range that are multiples of 8, each once, in increasing order |
| `InferenceEngine.SendsFromStart` | src/inference/inference_engine.py:63-64 | counting from frame 0, after k frames exactly k div 8 sends are due, at frames 8, 16, …, 8·(k div 8) |
| `InferenceEngine.Engine.constructor` | src/inference/inference_engine.py:62-64 | the counter starts at 0 with nothing submitted |
| `InferenceEngine.Engine.ProcessFrame` | src/inference/inference_engine.py:160-228 | the counter advances by one before anything else; the frame's output is its full payload or the conversion's error; the full payload is submitted exactly when the conversion succeeded and the new frame id is a multiple of 8, and nothing else is submitted |
| `InferenceEngine.SendsForCarry` | src/inference/inference_engine.py:222-228 | over frames that all convert, there is one task per due frame id, and the j-th task belongs to the frame of the j-th due id and carries its full payload with the given URL and timeout |
| `InferenceEngine.Engine.ProcessFrames` | src/inference/inference_engine.py:160-228 | each processed frame advances the counter by one; the loop ends early exactly at the first frame whose conversion raises; the due frame ids and tasks recorded are those of the frames processed, in order |
| `InferenceEngine.Engine.Run` | src/inference/inference_engine.py:151-228 | the URL and timeout come from `BACKEND_URL` and `BACKEND_TIMEOUT` with their defaults; each processed frame advances the counter by one; the run ends early exactly at the first frame whose conversion raises; the submissions are exactly at the due frame ids of the converted frames, in order, each carrying that frame's full payload with that URL and timeout; from a fresh counter, a completed run of k frames submits k div 8 tasks |
| `InferenceEngine.SendToBackend` | src/inference/inference_engine.py:99-106 | always returns; a warning is produced exactly when the post raised, and it carries the exception's message; an answered post produces none whatever its status |
| `Emailer.TailFile` | src/utils/emailer.py:17-30 | the last min(max_lines, n) lines in their original order; a negative bound raises |
| `Emailer.MaxBytes` | src/utils/emailer.py:47 | the attachment limit is 20 MiB (20971520 bytes) when unset, the given value otherwise |
| `Emailer.TailLines` | src/utils/emailer.py:48 | the tail length is 1000 lines when unset, the given value otherwise |
| `Emailer.Decide` | src/utils/emailer.py:50-68 | notification only exactly when the file is missing; tail exactly when the file exists and its size is strictly above the limit; the whole file when the size is at most the limit |
| `Emailer.AttachedBody` | src/utils/emailer.py:70-73 | the body opens with the intro line and contains the truncation note exactly when the log was truncated |
| `Emailer.SendLog` | src/utils/emailer.py:32-97 | missing file: the notification without attachment, no temporary file, and no size check; otherwise whole file or a temporary tail copy as decided; the temporary copy exists exactly when size > limit; it is removed exactly when it was created and the tail did not raise, even when SMTP raises; the body mentions truncation exactly when the copy exists; an SMTP failure surfaces as the raised error |

## Left out

- Flask routing, JSON parsing, CORS and the response encoding are not modelled. The posted event is whatever the request's JSON decodes to, a type parameter. The unused `latest_encoded_frame` global is left out too.
- The server's lock and the sender's thread pool are not modelled: concurrency is out of scope. Each request and each frame is one sequential step. The background queue is the sequence of submitted tasks; that the worker runs them one at a time is not modelled.
- The HTTP post is not modelled: network I/O is out of scope. `SendToBackend` takes the post's outcome as a parameter. `Run` takes the values of `BACKEND_URL` and `BACKEND_TIMEOUT`, already parsed, and resolves them with `BackendUrl` and `BackendTimeout`.
- Model loading, device setup, `model.track`, the video loader with its fallback copy, and `src/inference/run_inference.py` are not modelled: they are foreign library calls, I/O and an entry point. The tracker's boxes for each frame are an input.
- The display window and the `q` key that stops the loop are not modelled: they are UI. `Run` runs to the end of the frames or to the first conversion that raises.
- The cleanup after the loop is not part of `Run`: releasing the video source and closing windows are I/O. The final `send_log` call is modelled separately by `Emailer.SendLog`.
- `_compute_fps` is not modelled: it depends on the wall clock and on floating point. The FPS figure is a per-frame input.
- `round(conf, 3)` is not modelled: it is floating-point rounding. Confidences are `real` values and are copied into the record unrounded.
- The conversions `float(...)` and `int(...)` of tensor elements are not modelled: they are float handling. Class ids are given as integers.
- `TrafficMetrics`, `AlertEngine` and `VehicleLogger` are not modelled: their source is not part of this model. The metrics and alerts of a frame are inputs, and the CSV logging is left out.
- `Detections.DetectionsToJson`: requires the corner, confidence, class and id columns to have the same length, as the tensors of one tracking result always do. With shorter columns the code would raise an index error, which is not modelled.
- Reading the environment is not modelled, and neither is parsing it with `int(...)` or `float(...)` (a malformed value raises): they are I/O and string parsing. The environment values are given already parsed.
- SMTP, the message headers, temporary-file names and file reading are not modelled: they are I/O. For a log file that exists, its size and its lines are independent inputs; that the size matches the lines is not modelled. Line splitting and the `errors="ignore"` decoding are left out as well.
- ApiServer.IngestServer.Update: models only a body that decodes. When Flask cannot decode the body, `request.json` raises (415 or 400) before the lock is taken, nothing is appended, and the answer is not 200; the server's error answers are not modelled.
- ApiServer.LatestOf: "`{}` exactly when the store is empty" holds for the `Body` datatype. On the wire, a stored event that is itself `{}` reads the same as the empty answer.
- Detections.ToJson: its own contract states only the class of the error and the bound on the records. `Detections.ToJsonSpec` states in full what the conversion returns.
- The `EmailSender` constructor only stores credentials and addresses, so it is not modelled.
