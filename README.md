# GarbageEventDetector backend core, modelled in Dafny

GarbageEventDetector takes a dashcam video from a garbage truck. It cuts the video into one frame every five seconds and asks a vision model about each frame in two stages:

1. Are there bins ready for pickup?
2. If so, is there an issue with them: inaccessible, overflowing, safety, or other?

An in-memory registry keeps every job's progress and results. Clients poll the registry and attach human feedback to frames and events.

This project models three pieces of the backend:

- **`registry.dfy`** (module `Registry`) covers `backend/src/index.ts`.
  - The `processingStatus` map is the class `JobRegistry`, with a `jobs: map<string, Job>` field.
  - The routes behind it are methods or functions: upload, status, results, clear, and frame and event feedback.
  - `processVideo` is a method. It shapes each frame into a record (`ShapeFrame`) and runs batches of five (`RunBatches`, `RunBatch`, `SettleFrame`, `ProcessFrame`). Inside a batch, frames finish in an arbitrary order. A progress snapshot is stored after every frame. The job ends with a `completed` snapshot or a `failed` one.
  - `frameObjs` is a sparse JavaScript array, modelled as `seq<Option<FrameRecord>>` (a hole is `None`).
  - The whole run is specified by functions of the completion order: `FramesAlong`, `EventsAlong`, `Progress` and `Finished`. `WellFormed` is the invariant that every stored job keeps; `RunBatches`, `RunBatch` and `SettleFrame` require and ensure it of the whole map (`Valid`).
- **`video_processor.dfy`** (module `VideoProcessor`) covers `backend/src/services/videoProcessor.ts`.
  - `formatTimestamp` and its left inverse `ParseTimestamp`.
  - The filter, sort and map over the decoder's output directory listing.
  - `ExtractFrames`, which models the outcome of the probe and decoder runs.
- **`llm_service.dfy`** (module `LlmService`) covers `analyzeFrame` in `backend/src/services/llmService.ts`.
  - Stripping the code fences from the reply, then trimming it.
  - The default content and the fallback used when parsing fails.
  - The two-stage decision, the number of requests sent, and the event that is built.
- **`js.dfy`** (module `Js`) holds the small JavaScript semantics the code relies on:
  - a JSON-like `Value` with truthiness and `||`;
  - property access that throws on `null` and `undefined`;
  - `trim`, `Number.prototype.toString` on non-negative safe integers, and `padStart`.
- **`wrappers.dfy`** (module `Wrappers`) holds `Option` and `Result`.

Upload overwrites an existing entry for the same file id; it does not refuse it.

## Model

| member | source | states |
|---|---|---|
| Js.Get | backend/src/services/llmService.ts:84 | Property access throws exactly on null or undefined. A truthy result can only come from a field that is present on an object and holds a truthy value; anything else reads as undefined. |
| Js.GetWrittenField | backend/src/services/llmService.ts:84 | Reading back a field just written gives the written value, and writing one field leaves the reading of every other field unchanged. |
| Js.Trim | backend/src/services/llmService.ts:76 | The result is no longer than the input and neither starts nor ends with whitespace. |
| Js.TrimRemovesOnlyWhitespace | backend/src/services/llmService.ts:76 | The trimmed text is a contiguous slice of the input, and everything cut away on either side is whitespace. |
| Js.TrimIdempotent | backend/src/services/llmService.ts:145 | Trimming twice gives the same as trimming once. |
| Js.TrimNothingToRemove | backend/src/services/llmService.ts:145 | Text that neither starts nor ends with whitespace is left unchanged. |
| Js.ConcatAffixes | backend/src/index.ts:222 | A template literal's text starts with its leading parts and ends with its trailing parts. |
| Js.Dec | backend/src/services/videoProcessor.ts:114 | The decimal rendering of n is all digits and reads back as n. It has no leading zero except for "0", one digit exactly when n < 10, and at most two exactly when n < 100. |
| Js.PadStart | backend/src/services/videoProcessor.ts:114 | The result has length max(width, \|s\|). It ends with s unchanged, never truncating, and every added character is the fill. |
| VideoProcessor.FieldValue | backend/src/services/videoProcessor.ts:114 | A padded field is all digits and reads back as its number. It has two characters below 100; from 100 up it is the full decimal rendering. |
| VideoProcessor.FormatTimestamp | backend/src/services/videoProcessor.ts:110-115 | The text has at least 8 characters, with the colons 6 and 3 characters from its end: the minutes and seconds fields are always two characters wide, whatever the hours. |
| VideoProcessor.TimeSplit | backend/src/services/videoProcessor.ts:111-113 | With hours = s/3600, minutes = (s%3600)/60 and secs = s%60: minutes < 60, secs < 60, and hours·3600 + minutes·60 + secs = s. Hours < 100 exactly when s < 360000. |
| VideoProcessor.FormatTimestampRoundTrip | backend/src/services/videoProcessor.ts:110-115 | Parsing `HH:MM:SS` back, as hours·3600 + minutes·60 + secs, gives the original seconds, for every natural. |
| VideoProcessor.FormatTimestampShape | backend/src/services/videoProcessor.ts:110-115 | For s < 360000 the text is 8 characters, with colons at positions 2 and 5 and digits everywhere else. |
| VideoProcessor.FormatTimestampLongHours | backend/src/services/videoProcessor.ts:114 | For s ≥ 360000 the text is longer than 8, and the hour field is the full decimal rendering of s/3600; padding never truncates. |
| VideoProcessor.KeepFrameFiles | backend/src/services/videoProcessor.ts:77 | Every kept name starts with `frame_` and ends with `.jpg`. Each such name is kept exactly as many times as it was listed. |
| VideoProcessor.FrameNumber | backend/src/services/videoProcessor.ts:81-82 | A sort key is given only to a `frame_*.jpg` name with something between prefix and suffix. |
| VideoProcessor.FrameNumberOfName | backend/src/services/videoProcessor.ts:57-82 | Every name the decoder writes, `frame_<n>.jpg`, gets its own n as sort key. |
| VideoProcessor.SortByNumber | backend/src/services/videoProcessor.ts:79-84 | The sorted list is a permutation of its input. |
| VideoProcessor.SortByNumberOrders | backend/src/services/videoProcessor.ts:79-84 | When every name is `frame_<digits>.jpg`, the sorted names are in non-decreasing numeric order, not lexical order. |
| VideoProcessor.FramesFromListing | backend/src/services/videoProcessor.ts:87-90 | There is exactly one frame per kept `frame_*.jpg` name. |
| VideoProcessor.FramesFromListingProperties | backend/src/services/videoProcessor.ts:76-90 | There is one frame per kept name. Frame k has the joined path of the k-th sorted name and a timestamp that reads back as 5·k, so timestamps strictly increase. The kept multiset is preserved, and names are in numeric order when all are numbered. |
| VideoProcessor.ExtractFrames | backend/src/services/videoProcessor.ts:24-97 | A frame list comes back exactly when mkdir, the probe, the decoder and the readdir all succeed; the list is then the listing's frames. A non-zero probe exit gives the duration error, and a non-zero decoder exit gives the decoder error with its code. |
| LlmService.CleanReply | backend/src/services/llmService.ts:76 | The cleaned reply never starts or ends with whitespace. |
| LlmService.StripFences | backend/src/services/llmService.ts:76 | Fence removal only deletes, so the text never grows; what it deletes is stated by the three lemmas below. |
| LlmService.StripFencesNoFence | backend/src/services/llmService.ts:76 | Text with no three backticks in a row passes through the fence removal unchanged. |
| LlmService.StripOpeningFence | backend/src/services/llmService.ts:76 | An opening fence (three backticks and `json`) is deleted with the newline after it, and the rest is stripped as if it were alone. |
| LlmService.StripFencesClosing | backend/src/services/llmService.ts:76 | A closing fence after text with no three backticks in a row is deleted together with the newline before it. |
| LlmService.CleanFencedReply | backend/src/services/llmService.ts:76 | A reply wrapped as a json code fence, whose body has no three backticks in a row, cleans to the trimmed body. |
| LlmService.CleanPlainReply | backend/src/services/llmService.ts:145 | A reply with no three backticks in a row cleans to its trim. |
| LlmService.ReplyText | backend/src/services/llmService.ts:74 | The text parsed is either the default or the content itself; null or empty content gives the default and other content is kept. |
| LlmService.ReplyTextNonEmpty | backend/src/services/llmService.ts:74 | With a non-empty default, the text handed to the parser is never empty. |
| LlmService.StageRecord | backend/src/services/llmService.ts:77-82 | The record is either the fallback or what the cleaned text parses to: the fallback exactly when parsing fails. |
| LlmService.UnparsableReplyFailsStage | backend/src/services/llmService.ts:78-89 | Both fallback records read falsy under their stage's key (`false` and `null`), so a reply that does not parse fails its stage. |
| LlmService.Stage | backend/src/services/llmService.ts:72-89 | A stage that passes had an answered request, and its record's key reads as truthy. |
| LlmService.StagePasses | backend/src/services/llmService.ts:87-89 | A stage passes if and only if the request answered and the key of the record (parsed or fallback) is truthy in the JavaScript sense. |
| LlmService.AnalyzeFrame | backend/src/services/llmService.ts:25-173 | At most two requests are sent, and an event implies both were sent. |
| LlmService.RequestsSent | backend/src/services/llmService.ts:122 | No request is sent exactly when the image read fails. The second request is sent exactly when the image was read and stage 1 passed. |
| LlmService.DetectionExactly | backend/src/services/llmService.ts:155-168 | An event comes back if and only if the image was read and both stages pass. It then carries the unchecked truthy `eventFound` as its type, the stage-2 reason, the given timestamp, both placeholders, the frame path and the clock id. |
| LlmService.DefaultsAreClean | backend/src/services/llmService.ts:74 | The two default literals survive cleaning unchanged. |
| LlmService.EmptyPresenceReply | backend/src/services/llmService.ts:74 | Empty or null stage-1 content gives no event, after exactly one request. |
| LlmService.UnparsablePresenceReply | backend/src/services/llmService.ts:78-89 | An unparsable stage-1 reply gives no event, and no second request is sent. |
| LlmService.EmptyIssueReply | backend/src/services/llmService.ts:143 | Empty or null stage-2 content gives no event. |
| LlmService.NoIssueReported | backend/src/services/llmService.ts:146-158 | A stage-2 reply that fails to parse, or whose `eventFound` is falsy, gives no event. |
| LlmService.TruthyPresenceSendsSecondRequest | backend/src/services/llmService.ts:87-122 | Whatever the first reply parses to, a truthy `binsPresent` in it, not only `true`, leads to the second request. |
| LlmService.StringFalseSendsSecondRequest | backend/src/services/llmService.ts:87-122 | So a first reply whose `binsPresent` is the string `"false"` still leads to the second request. |
| Registry.FrameIdReadsBack | backend/src/index.ts:209 | A frame id is the file id, then `-frame-`, then digits that read back as the frame index. |
| Registry.FrameIdInjective | backend/src/index.ts:209 | Distinct frame indices give distinct `${fileId}-frame-${i}` ids. |
| Registry.ToSlashes | backend/src/index.ts:205 | Every backslash becomes `/` and every other character is kept in place, so the length is the same and no backslash is left. |
| Registry.ThumbnailUrl | backend/src/index.ts:205-211 | The thumbnail URL is `uploads/` followed by the relative path with each backslash turned into `/`; it contains no backslash. |
| Registry.ShapeFrame | backend/src/index.ts:194-215 | The record carries frame i's id, timestamp and thumbnail. With no detection it carries the three sentinels and no event is pushed. With a detection, the record's reason is the detection's reason or `flagged by model`, its type is the detection's type or `not flagged`, and its location is the detection's or the placeholder when empty. An event is pushed whose reason, location and thumbnail equal the record's; id, timestamp, type and driver come from the detection. |
| Registry.EventMatchesFrame | backend/src/index.ts:197-215 | With the real classifier, an event agrees with its frame record on timestamp, type, reason, location and thumbnail URL. |
| Registry.Place | backend/src/index.ts:208 | Assigning `frameObjs[j]` fills slot j, grows the array with holes when j is past its end, and leaves every other slot alone. |
| Registry.FramesAlongAt | backend/src/index.ts:208-215 | After any completion order, slot j holds frame j's record exactly when frame j has finished; otherwise it is a hole. |
| Registry.FinishedIsDense | backend/src/index.ts:232-249 | Once every batch has run, `frameObjs` has N slots and slot k holds frame k's record. |
| Registry.EventsAlongComplete | backend/src/index.ts:201-206 | Every event found by a finished frame is in `events`. |
| Registry.EventsAlongSound | backend/src/index.ts:201-206 | Every entry of `events` is the event of some finished frame. |
| Registry.EventsAlongLength | backend/src/index.ts:201-206 | There are never more events than finished frames. |
| Registry.FinishedWellFormed | backend/src/index.ts:246-253 | The `completed` snapshot is well formed: processed = total = N, N dense frames with their own ids. |
| Registry.ProgressWellFormed | backend/src/index.ts:216-225 | Every progress snapshot is well formed: processedFrames ≤ totalFrames, frame ids in place. |
| Registry.RoundPercentRounds | backend/src/index.ts:222 | The percentage r is 100·p/n rounded half up (2n·r ≤ 200p + n < 2n·(r + 1)). It is at most 100 while p ≤ n and is 100 at p = n. |
| Registry.ProgressMessageFields | backend/src/index.ts:222 | The progress message starts with `Processing frame p/n (` and ends with the rounded percentage and `%)`. |
| Registry.CompleteMessageFields | backend/src/index.ts:250 | The completion message starts with `Processing complete. Found e events in ` and ends with `n frames.`. |
| Registry.PublishedAt | backend/src/index.ts:216-225 | The p-th stored snapshot has status `processing`, totalFrames = N and processedFrames = p + 1, and shows exactly the first p + 1 finished frames. |
| Registry.Batch | backend/src/index.ts:233 | A batch slice holds exactly the indices i..end-1. |
| Registry.FindFrame | backend/src/index.ts:147 | `find` returns the first frame with the id, or reports that none has it. It hits a hole (a TypeError) only at the first hole before any match. |
| Registry.FindEvent | backend/src/index.ts:163 | `find` returns the first event with the id, or reports that none has it. |
| Registry.FrameFeedbackKeepsFind | backend/src/index.ts:151 | Setting feedback on a frame changes the result of no later lookup by id. |
| Registry.EventFeedbackKeepsFind | backend/src/index.ts:167 | Setting feedback on an event changes the result of no later lookup by id. |
| Registry.FrameFeedbackLastWins | backend/src/index.ts:151 | Two feedbacks on the same frame leave only the second. |
| Registry.FindFrameById | backend/src/index.ts:147-209 | In a well-formed job with no holes, looking up `${fileId}-frame-${k}` finds slot k. |
| Registry.StoreWellFormed | backend/src/index.ts:44-51 | Storing a well-formed job keeps every stored job well formed. |
| Registry.JobRegistry.constructor | backend/src/index.ts:44 | The registry starts empty. |
| Registry.JobRegistry.Upload | backend/src/index.ts:63 | The entry for the file id becomes `{status: processing, events: []}`, overwriting any old one; nothing else changes. |
| Registry.JobRegistry.Status | backend/src/index.ts:76-87 | Not found exactly when the id is absent; otherwise the stored job. |
| Registry.JobRegistry.Results | backend/src/index.ts:89-105 | Not found exactly when absent. Not complete exactly when present with a status other than `completed`. Otherwise the stored events, and the frames or `[]`. |
| Registry.JobRegistry.Clear | backend/src/index.ts:129 | The map is empty, and every status lookup is then not found. |
| Registry.JobRegistry.FrameFeedback | backend/src/index.ts:140-153 | A missing job or missing frames gives not found; so does a missing frame id; a hole hit by `find` gives the 500. In each of these cases the map is unchanged. Otherwise only the first matching frame gets the feedback, and it is returned. |
| Registry.JobRegistry.EventFeedback | backend/src/index.ts:156-169 | A missing job or missing event id gives not found, with the map unchanged. Otherwise only the first matching event gets the feedback, and it is returned. |
| Registry.JobRegistry.ProcessFrame | backend/src/index.ts:189-229 | Slot k gets frame k's record, and its event (if any) is appended. The count rises by one. The progress snapshot with totalFrames = N is stored under the file id. |
| Registry.JobRegistry.RunBatch | backend/src/index.ts:233-235 | Frames i..end-1 each finish exactly once in an arbitrary order. The state tracks that order, the map holds the last snapshot, and every stored job stays well formed. |
| Registry.JobRegistry.SettleFrame | backend/src/index.ts:235 | One pending frame of the batch finishes, the batch invariant is kept, and every stored job stays well formed. |
| Registry.JobRegistry.RunBatches | backend/src/index.ts:232-240 | Every index 0..N-1 finishes exactly once, in consecutive batches of five. There are ceil(N/5)-1 pauses (0 when N = 0). The state mirrors the completion order, and every stored job stays well formed. |
| Registry.JobRegistry.StoreCompleted | backend/src/index.ts:246-253 | The `completed` snapshot is stored under the file id, as the last of N + 1 snapshots, and every stored job stays well formed. |
| Registry.JobRegistry.ProcessVideo | backend/src/index.ts:171-264 | On an extraction error the `failed` snapshot is stored, with empty events and frames. Otherwise the frames run in batches of five. N progress snapshots follow the completion order, then the `completed` one (for N = 0 too), and the map ends with the `completed` job. |

## Left out

- Express routing, CORS, multer storage and its MIME filter, static serving and `listen` are framework plumbing. Only the map operations behind the routes are modelled. The upload route's missing-file 400 is left out with them.
- `/clear`'s deletion of the uploads and frames directories is filesystem work. Only the map clear is modelled.
- `fs.mkdir`, `fs.readdir` and the ffprobe/ffmpeg subprocesses are inputs to `ExtractFrames` (a `DecoderRun`): whether mkdir succeeded, each process's exit, and the directory listing. `path.join`, `path.basename` and `path.relative` are parameters or plain concatenations.
- The OpenAI SDK, the image read, base64 encoding and the prompt text become a `FrameIo` input. Each service reply is rejected, has no choice, or answers with optional content. `JSON.parse` is an oracle `parse: string -> Option<Value>`.
- There is no concurrency. Inside a batch, frames finish in an arbitrary order chosen by the model, one at a time. The 700 ms `setTimeout` is a counted pause. The fire-and-forget start of `processVideo` is a method call. Races between `clear` or feedback and a running job are not modelled.
- Registry.JobRegistry.ProcessVideo: the stored snapshots hold copies, not the live `events`/`frameObjs` arrays. In the source, feedback set during a run survives into later snapshots. In the model, the next snapshot replaces it.
- The percentage in the progress message uses exact rational rounding, floor(x + 1/2), not floating-point `Math.round`. The `parseFloat` duration is only logged, so it is left out.
- `Date.now()` ids are the `clock` input of each frame's `FrameIo`. They are not assumed unique.
- Console logging, timing logs, and the whole frontend are left out.
- VideoProcessor.SortByNumber: the `parseInt` comparator is modelled only for names of the form `frame_<digits>.jpg`. `parseInt` reads a numeric prefix (`frame_12abc.jpg` gives 12, `frame_-3.jpg` gives -3, `frame_0x1A.jpg` gives 26) and gives `NaN` only when there is none. For kept names outside the modelled form only a permutation is claimed, not the order a JavaScript engine would produce. The decoder writes only `frame_<n>.jpg` names.
- Js.Dec: JavaScript numbers are doubles. `toString` is exact for integers below 2^53 and prints an exponent from 10^21 up, while the model's naturals are unbounded. Frame seconds and frame counts stay far below both bounds.
- VideoProcessor.FormatTimestampRoundTrip: the round trip is proved for every natural, which matches JavaScript only for safe integers (below 2^53), for the same reason.
- Registry.JobRegistry.ProcessFrame: taken alone it does not promise that the map stays well formed, because its snapshot is well formed only under the batch invariant. SettleFrame, its only caller, proves that right after calling it.
- The `catch` in `processFrame` is never reached, because `analyzeFrame` catches everything itself. The model's frame processing therefore cannot fail, and a job never records a skipped frame.
- In Registry.JobRegistry.EventFeedback the `!status.events` test never fires because `events` is always an array. The model keeps only the missing-job case.
