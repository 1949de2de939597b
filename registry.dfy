/**
 * The backend's job registry and batch orchestrator (backend/src/index.ts):
 * the process-wide `processingStatus` map from upload id to job record, the
 * routes that read and write it, and processVideo, which extracts frames,
 * classifies them five at a time and publishes a snapshot after every frame.
 *
 * The classifier's world for frame i is `io(i)`, JSON.parse is `parse`, and
 * path.relative('uploads', ·) is `relative`. Inside a batch, frames finish in
 * an order the model leaves open (`:|`); a method call runs to completion
 * before any other route sees the map.
 */
module Registry {
  import opened Wrappers
  import Js
  import VideoProcessor
  import LlmService

  const Concurrency: nat := 5
  const NotFlagged: string := "not flagged"
  const FlaggedByModel: string := "flagged by model"
  const FailedMessage: string := "Processing failed. Please try again."

  // ---------------------------------------------------------------- records

  datatype Status = Processing | Completed | Failed

  /** An entry of `frameObjs`. */
  datatype FrameRecord = FrameRecord(
    id: string,
    timestamp: string,
    thumbnailUrl: string,
    reason: Js.Value,
    eventType: Js.Value,
    location: string,
    humanFeedback: Js.Value)   // Undefined until feedback is given

  /** An entry of `events`: the classifier's event with reason, location and thumbnail replaced. */
  datatype Event = Event(
    id: string,
    timestamp: string,
    eventType: Js.Value,
    reason: Js.Value,
    location: string,
    driver: string,
    thumbnailUrl: string,
    humanFeedback: Js.Value)

  /** A value of the `processingStatus` map. `frames` is a JavaScript array that
      may have holes (None) while a batch is in flight. */
  datatype Job = Job(
    status: Status,
    events: seq<Event>,
    frames: Option<seq<Option<FrameRecord>>>,
    message: Option<string>,
    totalFrames: Option<nat>,
    processedFrames: Option<nat>)

  /** What the upload route stores (line 63). */
  const NewJob: Job := Job(Processing, [], None, None, None, None)

  /** What processVideo stores when anything throws (lines 257-262). */
  const FailedJob: Job := Job(Failed, [], Some([]), Some(FailedMessage), None, None)

  /** `${fileId}-frame-${i}` */
  function FrameId(fileId: string, i: nat): string {
    fileId + "-frame-" + Js.Dec(i)
  }

  /** A frame id is the file id, `-frame-`, and digits that read back as the index. */
  lemma FrameIdReadsBack(fileId: string, i: nat)
    ensures var id := FrameId(fileId, i);
      && |id| > |fileId| + 7 && id[..|fileId| + 7] == fileId + "-frame-"
      && Js.AllDigits(id[|fileId| + 7..]) && Js.DigitsValue(id[|fileId| + 7..]) == i
  {
    assert FrameId(fileId, i)[|fileId| + 7..] == Js.Dec(i);
  }

  /** Distinct frame indices give distinct frame ids. */
  lemma FrameIdInjective(fileId: string, i: nat, j: nat)
    ensures FrameId(fileId, i) == FrameId(fileId, j) ==> i == j
  {
    var prefix := fileId + "-frame-";
    assert FrameId(fileId, i)[|prefix|..] == Js.Dec(i);
    assert FrameId(fileId, j)[|prefix|..] == Js.Dec(j);
  }

  /** `.replace(/\\/g, '/')` */
  function ToSlashes(s: string): (r: string)
    ensures |r| == |s|
    ensures '\\' !in r
    ensures forall i :: 0 <= i < |s| && s[i] != '\\' ==> r[i] == s[i]
    ensures forall i :: 0 <= i < |s| ==> r[i] == (if s[i] == '\\' then '/' else s[i])
  {
    if s == [] then []
    else [if s[0] == '\\' then '/' else s[0]] + ToSlashes(s[1..])
  }

  /** `uploads/${path.relative('uploads', framePath).replace(/\\/g, '/')}` */
  function ThumbnailUrl(framePath: string, relative: string -> string): (url: string)
    ensures Js.StartsWith(url, "uploads/")
    ensures '\\' !in url
    ensures |url| == 8 + |relative(framePath)|
    ensures forall i :: 0 <= i < |relative(framePath)| ==>
              url[8 + i] == (if relative(framePath)[i] == '\\' then '/' else relative(framePath)[i])
  {
    assert "uploads/" == ['u', 'p', 'l', 'o', 'a', 'd', 's', '/'];
    "uploads/" + ToSlashes(relative(framePath))
  }

  // ---------------------------------------------------------------- one frame

  /** What processFrame adds for one frame: its record and, when the classifier found something, an event. */
  datatype FrameOutcome = FrameOutcome(record: FrameRecord, event: Option<Event>)

  /** Lines 194-215: the frame record (sentinels when nothing was found) and the event pushed. */
  function ShapeFrame(fileId: string, i: nat, frame: VideoProcessor.Frame,
                      detection: Option<LlmService.Detection>, relative: string -> string): (out: FrameOutcome)
    ensures out.record.id == FrameId(fileId, i)
    ensures out.record.timestamp == frame.timestamp
    ensures out.record.thumbnailUrl == ThumbnailUrl(frame.framePath, relative)
    ensures out.record.humanFeedback == Js.Undefined
    ensures out.event.Some? <==> detection.Some?
    ensures detection.None? ==>
      && out.record.eventType == Js.Str(NotFlagged)
      && out.record.reason == Js.Str(NotFlagged)
      && out.record.location == LlmService.LocationPlaceholder
    ensures detection.Some? ==>
      var e := out.event.value;
      && Js.Truthy(out.record.reason)
      && out.record.location != ""
      && e.thumbnailUrl == out.record.thumbnailUrl
      && e.reason == out.record.reason
      && e.location == out.record.location
      && e.id == detection.value.id
      && e.timestamp == detection.value.timestamp
      && e.eventType == detection.value.eventType
      && e.driver == detection.value.driver
      && e.humanFeedback == Js.Undefined
    ensures detection.Some? ==>
      && out.record.reason == Js.Or(detection.value.reason, Js.Str(FlaggedByModel))
      && out.record.eventType == Js.Or(detection.value.eventType, Js.Str(NotFlagged))
      && out.record.location ==
           (if detection.value.location != "" then detection.value.location else LlmService.LocationPlaceholder)
  {
    var thumbnail := ThumbnailUrl(frame.framePath, relative);
    match detection
    case None =>
      FrameOutcome(FrameRecord(FrameId(fileId, i), frame.timestamp, thumbnail, Js.Str(NotFlagged),
                               Js.Str(NotFlagged), LlmService.LocationPlaceholder, Js.Undefined), None)
    case Some(d) =>
      var eventType := Js.Or(d.eventType, Js.Str(NotFlagged));
      var reason := Js.Or(d.reason, Js.Str(FlaggedByModel));
      var location := if d.location != "" then d.location else LlmService.LocationPlaceholder;
      FrameOutcome(FrameRecord(FrameId(fileId, i), frame.timestamp, thumbnail, reason, eventType, location, Js.Undefined),
                   Some(Event(d.id, d.timestamp, d.eventType, Js.Or(d.reason, reason), location, d.driver,
                              thumbnail, Js.Undefined)))
  }

  /** Everything one processVideo call works from, once the frames are extracted:
      `detect(k)` is what analyzeFrame resolves with for frame k. */
  datatype Run = Run(
    fileId: string,
    frames: seq<VideoProcessor.Frame>,
    detect: nat -> Option<LlmService.Detection>,
    relative: string -> string)

  /** `llmService.analyzeFrame(frame.framePath, frame.timestamp)` for every frame. */
  function Classifier(frames: seq<VideoProcessor.Frame>, io: nat -> LlmService.FrameIo,
                      parse: string -> Option<Js.Value>): nat -> Option<LlmService.Detection>
  {
    (k: nat) => if k < |frames| then LlmService.AnalyzeFrame(frames[k].framePath, frames[k].timestamp, io(k), parse).detection
         else None
  }

  /** processFrame(frames[k], k). */
  function Outcome(run: Run, k: nat): FrameOutcome
    requires k < |run.frames|
  {
    ShapeFrame(run.fileId, k, run.frames[k], run.detect(k), run.relative)
  }

  /** With the real classifier, an event and its frame's record agree on timestamp,
      label, reason, location and thumbnail, and the label is never the sentinel's. */
  lemma EventMatchesFrame(fileId: string, frames: seq<VideoProcessor.Frame>, io: nat -> LlmService.FrameIo,
                          parse: string -> Option<Js.Value>, relative: string -> string, k: nat)
    requires k < |frames|
    ensures var out := Outcome(Run(fileId, frames, Classifier(frames, io, parse), relative), k);
      out.event.Some? ==>
        && out.event.value.timestamp == out.record.timestamp
        && out.event.value.eventType == out.record.eventType
        && out.event.value.reason == out.record.reason
        && out.event.value.location == out.record.location
        && out.event.value.thumbnailUrl == out.record.thumbnailUrl
        && out.event.value.thumbnailUrl == ThumbnailUrl(frames[k].framePath, relative)
  {
    LlmService.DetectionExactly(frames[k].framePath, frames[k].timestamp, io(k), parse);
  }

  // ---------------------------------------------------------------- a run, frame by frame

  /** Every index of the completion order names a frame. */
  predicate InRange(run: Run, order: seq<nat>) {
    forall p :: 0 <= p < |order| ==> order[p] < |run.frames|
  }

  /** `fs[j] = rec` on a JavaScript array: writing past the end leaves holes. */
  function Place(fs: seq<Option<FrameRecord>>, j: nat, rec: FrameRecord): (r: seq<Option<FrameRecord>>)
    ensures |r| == if j < |fs| then |fs| else j + 1
    ensures r[j] == Some(rec)
    ensures forall q :: 0 <= q < |r| && q != j ==> r[q] == (if q < |fs| then fs[q] else None)
  {
    if j < |fs| then fs[j := Some(rec)] else fs + seq(j - |fs|, _ => None) + [Some(rec)]
  }

  /** `frameObjs` after the frames of `order` have finished, in that order. */
  function FramesAlong(run: Run, order: seq<nat>): seq<Option<FrameRecord>>
    requires InRange(run, order)
    decreases |order|
  {
    if order == [] then []
    else
      var last := order[|order| - 1];
      Place(FramesAlong(run, order[..|order| - 1]), last, Outcome(run, last).record)
  }

  /** `events` after the frames of `order` have finished, in that order. */
  function EventsAlong(run: Run, order: seq<nat>): seq<Event>
    requires InRange(run, order)
    decreases |order|
  {
    if order == [] then []
    else
      var e := Outcome(run, order[|order| - 1]).event;
      EventsAlong(run, order[..|order| - 1]) + (if e.Some? then [e.value] else [])
  }

  /** `Math.round((p / n) * 100)` in exact arithmetic. */
  function RoundPercent(p: nat, n: nat): (r: nat)
    requires n > 0
  {
    (200 * p + n) / (2 * n)
  }

  /** The percentage is 100 p / n rounded half up: 2n r <= 200p + n < 2n (r + 1).
      It never exceeds 100 while p <= n and is 100 at p == n. */
  lemma RoundPercentRounds(p: nat, n: nat)
    requires n > 0
    ensures var r := RoundPercent(p, n);
      && r * (2 * n) <= 200 * p + n < (r + 1) * (2 * n)
      && (p <= n ==> r <= 100)
      && (p == n ==> r == 100)
  {
    var r := RoundPercent(p, n);
    var d := 2 * n;
    assert r * d <= 200 * p + n < (r + 1) * d;
    if p <= n {
      assert 200 * p + n < 101 * d;
      RatioBound(r, d, 101);
    }
    if p == n {
      assert 100 * d <= 200 * p + n;
      RatioAtLeast(r, d, 100);
    }
  }

  /** r * d < (bound) * d with d > 0 means r < bound. */
  lemma RatioBound(r: nat, d: nat, bound: nat)
    requires d > 0 && r * d < bound * d
    ensures r < bound
  {
  }

  /** lo * d < (r + 1) * d with d > 0 means lo <= r. */
  lemma RatioAtLeast(r: nat, d: nat, lo: nat)
    requires d > 0 && lo * d < (r + 1) * d
    ensures lo <= r
  {
  }

  /** `Processing frame ${p}/${n} (${percent}%)` */
  function ProgressMessage(p: nat, n: nat): string
    requires n > 0
  {
    "Processing frame " + Js.Dec(p) + "/" + Js.Dec(n) + " (" + Js.Dec(RoundPercent(p, n)) + "%)"
  }

  /** The progress message opens with the processed count over the total and closes with the rounded percentage. */
  lemma ProgressMessageFields(p: nat, n: nat)
    requires n > 0
    ensures Js.StartsWith(ProgressMessage(p, n), "Processing frame " + Js.Dec(p) + "/" + Js.Dec(n) + " (")
    ensures Js.EndsWith(ProgressMessage(p, n), Js.Dec(RoundPercent(p, n)) + "%)")
  {
    var head := "Processing frame " + Js.Dec(p) + "/" + Js.Dec(n) + " (";
    var tail := Js.Dec(RoundPercent(p, n)) + "%)";
    assert ProgressMessage(p, n) == head + tail;
    Js.ConcatAffixes(head, tail);
  }

  /** `Processing complete. Found ${e} events in ${n} frames.` */
  function CompleteMessage(e: nat, n: nat): string {
    "Processing complete. Found " + Js.Dec(e) + " events in " + Js.Dec(n) + " frames."
  }

  /** The completion message reports the event count and then the frame count. */
  lemma CompleteMessageFields(e: nat, n: nat)
    ensures Js.StartsWith(CompleteMessage(e, n), "Processing complete. Found " + Js.Dec(e) + " events in ")
    ensures Js.EndsWith(CompleteMessage(e, n), Js.Dec(n) + " frames.")
  {
    var head := "Processing complete. Found " + Js.Dec(e) + " events in ";
    var tail := Js.Dec(n) + " frames.";
    assert CompleteMessage(e, n) == head + tail;
    Js.ConcatAffixes(head, tail);
  }

  /** The snapshot published when the frames of `order` have finished (lines 218-225). */
  function Progress(run: Run, order: seq<nat>): Job
    requires InRange(run, order) && |order| > 0
  {
    assert order[0] < |run.frames|;
    Job(Processing, EventsAlong(run, order), Some(FramesAlong(run, order)),
        Some(ProgressMessage(|order|, |run.frames|)), Some(|run.frames|), Some(|order|))
  }

  /** The snapshot published after the last batch (lines 246-253). */
  function Finished(run: Run, order: seq<nat>): Job
    requires InRange(run, order)
  {
    var events := EventsAlong(run, order);
    Job(Completed, events, Some(FramesAlong(run, order)),
        Some(CompleteMessage(|events|, |run.frames|)), Some(|run.frames|), Some(|run.frames|))
  }

  /** A completion order of n frames in batches of five: position p belongs to batch p / 5,
      and so does the frame finishing there; every frame finishes exactly once. */
  predicate BatchedOrder(order: seq<nat>, n: nat) {
    && |order| == n
    && (forall p :: 0 <= p < n ==> order[p] < n && order[p] / Concurrency == p / Concurrency)
    && (forall p, q :: 0 <= p < q < n ==> order[p] != order[q])
    && (forall k :: 0 <= k < n ==> k in order)
  }

  /** The 700 ms waits: one between consecutive batches, none after the last. */
  function Pauses(n: nat): nat {
    if n == 0 then 0 else (n + Concurrency - 1) / Concurrency - 1
  }

  /** What every stored job satisfies: progress within bounds, frame i carries
      frame i's id, a completed job holds every frame, a failed one holds nothing. */
  predicate WellFormed(fileId: string, job: Job) {
    && (job.processedFrames.Some? && job.totalFrames.Some? ==> job.processedFrames.value <= job.totalFrames.value)
    && (job.frames.Some? ==>
          forall k :: 0 <= k < |job.frames.value| && job.frames.value[k].Some? ==>
            job.frames.value[k].value.id == FrameId(fileId, k))
    && (job.status == Completed ==>
          && job.totalFrames.Some? && job.processedFrames == job.totalFrames
          && job.frames.Some? && |job.frames.value| == job.totalFrames.value
          && (forall k :: 0 <= k < |job.frames.value| ==> job.frames.value[k].Some?))
    && (job.status == Failed ==> job.events == [] && job.frames == Some([]))
  }

  // ---------------------------------------------------------------- properties of a run

  /** Slot j of `frameObjs` holds frame j's record exactly when frame j has finished, a hole otherwise. */
  lemma {:induction false} FramesAlongAt(run: Run, order: seq<nat>)
    requires InRange(run, order)
    ensures |FramesAlong(run, order)| <= |run.frames|
    ensures forall p :: 0 <= p < |order| ==> order[p] < |FramesAlong(run, order)|
    ensures forall j :: 0 <= j < |FramesAlong(run, order)| ==>
              FramesAlong(run, order)[j] == (if j in order then Some(Outcome(run, j).record) else None)
    decreases |order|
  {
    if order != [] {
      var pre := order[..|order| - 1];
      var last := order[|order| - 1];
      assert order == pre + [last];
      FramesAlongAt(run, pre);
      var fs := FramesAlong(run, pre);
      var r := FramesAlong(run, order);
      assert r == Place(fs, last, Outcome(run, last).record);
      forall j | 0 <= j < |r|
        ensures r[j] == (if j in order then Some(Outcome(run, j).record) else None)
      {
        if j != last && j >= |fs| {
          assert j !in pre;
        }
      }
    }
  }

  /** Once every frame has finished, `frameObjs` is dense: slot k holds frame k's record. */
  lemma FinishedIsDense(run: Run, order: seq<nat>)
    requires BatchedOrder(order, |run.frames|)
    ensures InRange(run, order)
    ensures var fs := Finished(run, order).frames.value;
      && |fs| == |run.frames|
      && forall k :: 0 <= k < |fs| ==> fs[k] == Some(Outcome(run, k).record)
  {
    FramesAlongAt(run, order);
    var n := |run.frames|;
    if n > 0 {
      assert n - 1 in order;
    }
  }

  /** The completed snapshot is well formed. */
  lemma FinishedWellFormed(run: Run, order: seq<nat>)
    requires BatchedOrder(order, |run.frames|)
    ensures InRange(run, order)
    ensures WellFormed(run.fileId, Finished(run, order))
  {
    FinishedIsDense(run, order);
  }

  /** Every progress snapshot is well formed: processedFrames <= totalFrames, and frame ids sit at their own index. */
  lemma ProgressWellFormed(run: Run, order: seq<nat>)
    requires InRange(run, order) && 0 < |order| <= |run.frames|
    ensures WellFormed(run.fileId, Progress(run, order))
  {
    FramesAlongAt(run, order);
  }

  /** A finished frame's event is among the events. */
  lemma {:induction false} EventsAlongComplete(run: Run, order: seq<nat>, p: nat)
    requires InRange(run, order) && p < |order|
    requires Outcome(run, order[p]).event.Some?
    ensures Outcome(run, order[p]).event.value in EventsAlong(run, order)
    decreases |order|
  {
    var pre := order[..|order| - 1];
    if p < |pre| {
      assert pre[p] == order[p];
      EventsAlongComplete(run, pre, p);
    }
  }

  /** Each event came from a finished frame: the q-th event is the event of frame `order[p]`. */
  lemma {:induction false} EventsAlongSound(run: Run, order: seq<nat>, q: nat) returns (p: nat)
    requires InRange(run, order) && q < |EventsAlong(run, order)|
    ensures p < |order| && Outcome(run, order[p]).event == Some(EventsAlong(run, order)[q])
    decreases |order|
  {
    var pre := order[..|order| - 1];
    if q < |EventsAlong(run, pre)| {
      p := EventsAlongSound(run, pre, q);
      assert pre[p] == order[p];
    } else {
      p := |order| - 1;
    }
  }

  /** There are at most as many events as finished frames. */
  lemma {:induction false} EventsAlongLength(run: Run, order: seq<nat>)
    requires InRange(run, order)
    ensures |EventsAlong(run, order)| <= |order|
    decreases |order|
  {
    if order != [] {
      EventsAlongLength(run, order[..|order| - 1]);
    }
  }

  /** One more finished frame: what processFrame adds to `frameObjs`, `events` and the snapshot. */
  lemma AlongStep(run: Run, order: seq<nat>, k: nat)
    requires InRange(run, order) && k < |run.frames|
    ensures InRange(run, order + [k])
    ensures FramesAlong(run, order + [k]) == Place(FramesAlong(run, order), k, Outcome(run, k).record)
    ensures EventsAlong(run, order + [k]) ==
              EventsAlong(run, order) + (if Outcome(run, k).event.Some? then [Outcome(run, k).event.value] else [])
  {
    assert (order + [k])[..|order|] == order;
  }

  /** The snapshots published so far, one per finished frame: snapshot p is the
      progress snapshot taken when the first p + 1 frames of `order` had finished. */
  predicate PublishedAlong(run: Run, published: seq<Job>, order: seq<nat>)
    decreases |published|
  {
    && |published| == |order|
    && InRange(run, order)
    && (published != [] ==>
          && PublishedAlong(run, published[..|published| - 1], order[..|order| - 1])
          && published[|published| - 1] == Progress(run, order))
  }

  lemma PublishedStep(run: Run, published: seq<Job>, order: seq<nat>, k: nat)
    requires k < |run.frames| && PublishedAlong(run, published, order)
    ensures PublishedAlong(run, published + [Progress(run, order + [k])], order + [k])
  {
    InRangeSnoc(run, order, k);
    var longer := published + [Progress(run, order + [k])];
    assert longer[..|published|] == published;
    assert (order + [k])[..|order|] == order;
  }

  lemma InRangeSnoc(run: Run, order: seq<nat>, k: nat)
    requires InRange(run, order) && k < |run.frames|
    ensures InRange(run, order + [k])
  {
    var order' := order + [k];
    assert forall p :: 0 <= p < |order| ==> order'[p] == order[p];
  }

  /** Snapshot p counts p + 1 processed frames of the n, and covers exactly the first p + 1 finished. */
  lemma PublishedAt(run: Run, published: seq<Job>, order: seq<nat>, p: nat)
    requires PublishedAlong(run, published, order) && p < |published|
    ensures InRange(run, order[..p + 1])
    ensures published[p] == Progress(run, order[..p + 1])
    ensures published[p].processedFrames == Some(p + 1) && published[p].totalFrames == Some(|run.frames|)
    ensures published[p].status == Processing
  {
    PublishedIsProgress(run, published, order, p);
  }

  lemma {:induction false} PublishedIsProgress(run: Run, published: seq<Job>, order: seq<nat>, p: nat)
    requires PublishedAlong(run, published, order) && p < |published|
    ensures InRange(run, order[..p + 1]) && published[p] == Progress(run, order[..p + 1])
    decreases |published|
  {
    if p < |published| - 1 {
      var pre := order[..|order| - 1];
      PublishedIsProgress(run, published[..|published| - 1], pre, p);
      assert pre[..p + 1] == order[..p + 1];
    } else {
      assert order[..p + 1] == order;
    }
  }

  /** The local state of processVideo is what the frames of `order` produced, in that order. */
  predicate Tracks(run: Run, order: seq<nat>, frameObjs: seq<Option<FrameRecord>>, events: seq<Event>,
                   published: seq<Job>)
  {
    && InRange(run, order)
    && frameObjs == FramesAlong(run, order)
    && events == EventsAlong(run, order)
    && PublishedAlong(run, published, order)
  }

  /** One more finished frame keeps the local state in step with the completion order. */
  lemma TracksStep(run: Run, order: seq<nat>, frameObjs: seq<Option<FrameRecord>>, events: seq<Event>,
                   published: seq<Job>, k: nat)
    requires Tracks(run, order, frameObjs, events, published) && k < |run.frames|
    ensures var out := Outcome(run, k);
      var frameObjs' := Place(frameObjs, k, out.record);
      var events' := events + (if out.event.Some? then [out.event.value] else []);
      var snapshot := Job(Processing, events', Some(frameObjs'), Some(ProgressMessage(|order| + 1, |run.frames|)),
                          Some(|run.frames|), Some(|order| + 1));
      Tracks(run, order + [k], frameObjs', events', published + [snapshot])
  {
    AlongStep(run, order, k);
    PublishedStep(run, published, order, k);
  }

  /** A prefix of a batched completion order over the frames below `bound`. */
  predicate BatchedPrefix(order: seq<nat>, bound: nat) {
    && (forall p :: 0 <= p < |order| ==> order[p] < bound && order[p] / Concurrency == p / Concurrency)
    && (forall p, q :: 0 <= p < q < |order| ==> order[p] != order[q])
  }

  /** A frame of the current batch that has not finished yet may finish next. */
  lemma BatchedPrefixStep(order: seq<nat>, i: nat, end: nat, k: nat)
    requires BatchedPrefix(order, end) && i % Concurrency == 0
    requires i <= |order| < end <= i + Concurrency && i <= k < end && k !in order
    ensures BatchedPrefix(order + [k], end)
  {
    SameBatch(i, k);
    SameBatch(i, |order|);
    var order' := order + [k];
    assert forall p :: 0 <= p < |order| ==> order'[p] == order[p];
  }

  /** The state of a batch in flight: frames i .. end-1 are either finished (in `order`) or pending. */
  predicate BatchInvariant(run: Run, i: nat, end: nat, pending: set<nat>, order: seq<nat>,
                           frameObjs: seq<Option<FrameRecord>>, events: seq<Event>, published: seq<Job>)
  {
    && i % Concurrency == 0 && i < end <= i + Concurrency && end <= |run.frames|
    && (forall k :: k in pending ==> i <= k < end)
    && |order| + |pending| == end && i <= |order|
    && BatchedPrefix(order, end)
    && (forall k :: 0 <= k < i ==> k in order)
    && (forall k :: i <= k < end ==> (k in order <==> k !in pending))
    && Tracks(run, order, frameObjs, events, published)
  }

  /** A batch starts with all of its frames pending. */
  lemma BatchStart(run: Run, i: nat, end: nat, order: seq<nat>,
                   frameObjs: seq<Option<FrameRecord>>, events: seq<Event>, published: seq<Job>)
    requires i % Concurrency == 0 && i < end <= i + Concurrency && end <= |run.frames|
    requires |order| == i && (forall k :: 0 <= k < i ==> k in order) && BatchedPrefix(order, i)
    requires Tracks(run, order, frameObjs, events, published)
    ensures BatchInvariant(run, i, end, Batch(i, end), order, frameObjs, events, published)
  {
  }

  /** A batch with nothing pending has finished every frame below `end`. */
  lemma BatchEnd(run: Run, i: nat, end: nat, order: seq<nat>,
                 frameObjs: seq<Option<FrameRecord>>, events: seq<Event>, published: seq<Job>)
    requires BatchInvariant(run, i, end, {}, order, frameObjs, events, published)
    ensures |order| == end && (forall k :: 0 <= k < end ==> k in order) && BatchedPrefix(order, end)
    ensures Tracks(run, order, frameObjs, events, published)
  {
  }

  /** Finishing a pending frame of the batch keeps the batch state. */
  lemma BatchStep(run: Run, i: nat, end: nat, pending: set<nat>, order: seq<nat>,
                  frameObjs: seq<Option<FrameRecord>>, events: seq<Event>, published: seq<Job>, k: nat,
                  frameObjs': seq<Option<FrameRecord>>, events': seq<Event>, snapshot: Job)
    requires BatchInvariant(run, i, end, pending, order, frameObjs, events, published) && k in pending
    requires frameObjs' == Place(frameObjs, k, Outcome(run, k).record)
    requires events' == events + (if Outcome(run, k).event.Some? then [Outcome(run, k).event.value] else [])
    requires snapshot == Job(Processing, events', Some(frameObjs'), Some(ProgressMessage(|order| + 1, |run.frames|)),
                             Some(|run.frames|), Some(|order| + 1))
    ensures BatchInvariant(run, i, end, pending - {k}, order + [k], frameObjs', events', published + [snapshot])
  {
    TracksStep(run, order, frameObjs, events, published, k);
    BatchedPrefixStep(order, i, end, k);
  }

  /** The registry while one job publishes its snapshots: `base` as it was before
      the job's first snapshot, with the latest snapshot stored under `key`. */
  ghost function Stored(base: map<string, Job>, key: string, published: seq<Job>): map<string, Job> {
    if published == [] then base else base[key := published[|published| - 1]]
  }

  /** Storing the newest snapshot under the job's key keeps the registry at Stored. */
  lemma StoredExtend(base: map<string, Job>, key: string, published: seq<Job>, longer: seq<Job>,
                     prev: map<string, Job>, next: map<string, Job>)
    requires |published| < |longer|
    requires prev == Stored(base, key, published)
    requires next == prev[key := longer[|longer| - 1]]
    ensures next == Stored(base, key, longer)
  {
    if published != [] {
      assert prev == base[key := published[|published| - 1]];
      assert next == base[key := longer[|longer| - 1]];
    }
  }

  /** Step of the pause count: a pause after a batch exactly when another follows. */
  lemma PauseStep(i: nat, n: nat)
    requires i % Concurrency == 0 && i < n
    ensures (i + Concurrency) % Concurrency == 0
    ensures i + Concurrency < n ==> (i + Concurrency) / Concurrency == i / Concurrency + 1
    ensures i + Concurrency >= n ==> i / Concurrency == Pauses(n)
  {
  }

  /** The frames of one batch, and the positions they finish at, share a batch number. */
  lemma SameBatch(i: nat, x: nat)
    requires i % Concurrency == 0 && i <= x < i + Concurrency
    ensures x / Concurrency == i / Concurrency
  {
  }

  /** The indices of one batch, `frames.slice(i, end)`. */
  function Batch(i: nat, end: nat): (r: set<nat>)
    ensures forall k :: k in r <==> i <= k < end
    ensures |r| == if i < end then end - i else 0
    decreases end - i
  {
    if i >= end then {} else {i} + Batch(i + 1, end)
  }

  // ---------------------------------------------------------------- feedback

  /** `frames.find(f => f.id === id)`: the first match, or `undefined`, or a TypeError at the first hole. */
  datatype Find = Found(index: nat) | Missing | HitHole(index: nat)

  function FindFrame(fs: seq<Option<FrameRecord>>, id: string): (f: Find)
    ensures f.Found? ==> f.index < |fs| && fs[f.index].Some? && fs[f.index].value.id == id
    ensures f.HitHole? ==> f.index < |fs| && fs[f.index].None?
    ensures !f.Missing? ==> forall j :: 0 <= j < f.index ==> fs[j].Some? && fs[j].value.id != id
    ensures f.Missing? ==> forall j :: 0 <= j < |fs| ==> fs[j].Some? && fs[j].value.id != id
  {
    if fs == [] then Missing
    else if fs[0].None? then HitHole(0)
    else if fs[0].value.id == id then Found(0)
    else match FindFrame(fs[1..], id)
      case Found(k) => Found(k + 1)
      case HitHole(k) => HitHole(k + 1)
      case Missing => Missing
  }

  /** `events.find(e => e.id === id)`: the first match, if any. */
  function FindEvent(es: seq<Event>, id: string): (r: Option<nat>)
    ensures r.Some? ==> r.value < |es| && es[r.value].id == id
    ensures r.Some? ==> forall j :: 0 <= j < r.value ==> es[j].id != id
    ensures r.None? ==> forall j :: 0 <= j < |es| ==> es[j].id != id
  {
    if es == [] then None
    else if es[0].id == id then Some(0)
    else match FindEvent(es[1..], id)
      case Some(k) => Some(k + 1)
      case None => None
  }

  /** `frame.humanFeedback = humanFeedback` on slot k. */
  function WithFrameFeedback(fs: seq<Option<FrameRecord>>, k: nat, humanFeedback: Js.Value): seq<Option<FrameRecord>>
    requires k < |fs| && fs[k].Some?
  {
    fs[k := Some(fs[k].value.(humanFeedback := humanFeedback))]
  }

  /** `event.humanFeedback = humanFeedback` on entry k. */
  function WithEventFeedback(es: seq<Event>, k: nat, humanFeedback: Js.Value): seq<Event>
    requires k < |es|
  {
    es[k := es[k].(humanFeedback := humanFeedback)]
  }

  /** Feedback leaves ids and holes alone, so a later lookup by any id finds what it found before. */
  lemma {:induction false} FrameFeedbackKeepsFind(fs: seq<Option<FrameRecord>>, k: nat, humanFeedback: Js.Value, id: string)
    requires k < |fs| && fs[k].Some?
    ensures FindFrame(WithFrameFeedback(fs, k, humanFeedback), id) == FindFrame(fs, id)
  {
    var gs := WithFrameFeedback(fs, k, humanFeedback);
    if k == 0 {
      assert gs[0].Some? && gs[0].value.id == fs[0].value.id;
      assert gs[1..] == fs[1..];
    } else {
      assert gs[0] == fs[0];
      if fs[0].Some? && fs[0].value.id != id {
        assert gs[1..] == WithFrameFeedback(fs[1..], k - 1, humanFeedback);
        FrameFeedbackKeepsFind(fs[1..], k - 1, humanFeedback, id);
      }
    }
  }

  /** The same for events. */
  lemma {:induction false} EventFeedbackKeepsFind(es: seq<Event>, k: nat, humanFeedback: Js.Value, id: string)
    requires k < |es|
    ensures FindEvent(WithEventFeedback(es, k, humanFeedback), id) == FindEvent(es, id)
  {
    var gs := WithEventFeedback(es, k, humanFeedback);
    if k == 0 {
      assert gs[0].id == es[0].id;
      assert gs[1..] == es[1..];
    } else {
      assert gs[0] == es[0];
      if es[0].id != id {
        assert gs[1..] == WithEventFeedback(es[1..], k - 1, humanFeedback);
        EventFeedbackKeepsFind(es[1..], k - 1, humanFeedback, id);
      }
    }
  }

  /** Feedback on the same frame twice: the second value wins. */
  lemma FrameFeedbackLastWins(fs: seq<Option<FrameRecord>>, k: nat, first: Js.Value, second: Js.Value)
    requires k < |fs| && fs[k].Some?
    ensures WithFrameFeedback(WithFrameFeedback(fs, k, first), k, second) == WithFrameFeedback(fs, k, second)
  {
  }

  /** In a well-formed job whose frames are all present, the id `${fileId}-frame-${k}` reaches frame k. */
  lemma FindFrameById(fileId: string, job: Job, k: nat)
    requires WellFormed(fileId, job) && job.frames.Some?
    requires forall j :: 0 <= j < |job.frames.value| ==> job.frames.value[j].Some?
    requires k < |job.frames.value|
    ensures FindFrame(job.frames.value, FrameId(fileId, k)) == Found(k)
  {
    var fs := job.frames.value;
    var f := FindFrame(fs, FrameId(fileId, k));
    if f.Found? {
      FrameIdInjective(fileId, f.index, k);
    }
  }

  datatype Feedback<T> = NoJob | NoRecord | Crashed | Saved(record: T)

  // ---------------------------------------------------------------- the registry

  /** Every stored job is well formed for its own id. */
  ghost predicate AllWellFormed(jobs: map<string, Job>) {
    forall id :: id in jobs ==> WellFormed(id, jobs[id])
  }

  /** Storing a job well formed for its id keeps every stored job well formed. */
  lemma StoreWellFormed(jobs: map<string, Job>, id: string, job: Job)
    requires AllWellFormed(jobs) && WellFormed(id, job)
    ensures AllWellFormed(jobs[id := job])
  {
  }

  class JobRegistry {
    /** processingStatus */
    var jobs: map<string, Job>

    ghost predicate Valid()
      reads this
    {
      AllWellFormed(jobs)
    }

    constructor()
      ensures jobs == map[] && Valid()
    {
      jobs := map[];
    }

    /** Line 63: a fresh `processing` entry, replacing whatever the id held. */
    method Upload(fileId: string)
      modifies this
      requires Valid()
      ensures Valid()
      ensures jobs == old(jobs)[fileId := NewJob]
    {
      jobs := jobs[fileId := NewJob];
    }

    /** GET /status/:fileId: not found, or the stored job. */
    function Status(fileId: string): (r: Option<Job>)
      reads this
      ensures r.None? <==> fileId !in jobs
      ensures r.Some? ==> r.value == jobs[fileId]
    {
      if fileId in jobs then Some(jobs[fileId]) else None
    }

    /** GET /results/:fileId */
    function Results(fileId: string): (r: ResultsReply)
      reads this
      ensures r == Unknown <==> fileId !in jobs
      ensures r == NotComplete <==> fileId in jobs && jobs[fileId].status != Completed
      ensures r.Delivered? ==>
        && r.events == jobs[fileId].events
        && r.frames == jobs[fileId].frames.GetOr([])
    {
      if fileId !in jobs then Unknown
      else if jobs[fileId].status != Completed then NotComplete
      else Delivered(jobs[fileId].events, jobs[fileId].frames.GetOr([]))
    }

    /** Line 129: after clearing, every lookup is not found. */
    method Clear()
      modifies this
      requires Valid()
      ensures Valid()
      ensures jobs == map[]
      ensures forall id :: Status(id) == None
    {
      jobs := map[];
    }

    /** POST /feedback/:fileId/:frameId */
    method FrameFeedback(fileId: string, frameId: string, humanFeedback: Js.Value)
      returns (reply: Feedback<FrameRecord>)
      modifies this
      requires Valid()
      ensures Valid()
      ensures fileId !in old(jobs) || old(jobs)[fileId].frames.None? ==> reply == NoJob && jobs == old(jobs)
      ensures fileId in old(jobs) && old(jobs)[fileId].frames.Some? ==>
        var job := old(jobs)[fileId];
        var fs := job.frames.value;
        match FindFrame(fs, frameId)
        case HitHole(_) => reply == Crashed && jobs == old(jobs)
        case Missing => reply == NoRecord && jobs == old(jobs)
        case Found(k) =>
          && reply == Saved(fs[k].value.(humanFeedback := humanFeedback))
          && jobs == old(jobs)[fileId := job.(frames := Some(WithFrameFeedback(fs, k, humanFeedback)))]
    {
      if fileId !in jobs || jobs[fileId].frames.None? {
        return NoJob;
      }
      var job := jobs[fileId];
      var fs := job.frames.value;
      match FindFrame(fs, frameId)
      case HitHole(_) =>
        reply := Crashed;
      case Missing =>
        reply := NoRecord;
      case Found(k) =>
        var updated := WithFrameFeedback(fs, k, humanFeedback);
        jobs := jobs[fileId := job.(frames := Some(updated))];
        reply := Saved(updated[k].value);
    }

    /** POST /event-feedback/:fileId/:eventId (`events` is always an array, so only a missing job is "not found"). */
    method EventFeedback(fileId: string, eventId: string, humanFeedback: Js.Value)
      returns (reply: Feedback<Event>)
      modifies this
      requires Valid()
      ensures Valid()
      ensures fileId !in old(jobs) ==> reply == NoJob && jobs == old(jobs)
      ensures fileId in old(jobs) ==>
        var job := old(jobs)[fileId];
        match FindEvent(job.events, eventId)
        case None => reply == NoRecord && jobs == old(jobs)
        case Some(k) =>
          && reply == Saved(job.events[k].(humanFeedback := humanFeedback))
          && jobs == old(jobs)[fileId := job.(events := WithEventFeedback(job.events, k, humanFeedback))]
    {
      if fileId !in jobs {
        return NoJob;
      }
      var job := jobs[fileId];
      match FindEvent(job.events, eventId)
      case None =>
        reply := NoRecord;
      case Some(k) =>
        var updated := WithEventFeedback(job.events, k, humanFeedback);
        jobs := jobs[fileId := job.(events := updated)];
        reply := Saved(updated[k]);
    }

    /** processFrame(frames[k], k), lines 189-229: classify, push the event, fill slot k,
        count the frame and publish a progress snapshot. */
    method ProcessFrame(run: Run, k: nat, frameObjs: seq<Option<FrameRecord>>, events: seq<Event>,
                        processedFrames: nat)
      returns (frameObjs': seq<Option<FrameRecord>>, events': seq<Event>, processedFrames': nat, snapshot: Job)
      modifies this
      requires k < |run.frames|
      ensures var out := Outcome(run, k);
        && frameObjs' == Place(frameObjs, k, out.record)
        && events' == events + (if out.event.Some? then [out.event.value] else [])
        && processedFrames' == processedFrames + 1
        && snapshot == Job(Processing, events', Some(frameObjs'), Some(ProgressMessage(processedFrames', |run.frames|)),
                           Some(|run.frames|), Some(processedFrames'))
        && jobs == old(jobs)[run.fileId := snapshot]
    {
      var frame := run.frames[k];
      var out := ShapeFrame(run.fileId, k, frame, run.detect(k), run.relative);
      events' := events;
      if out.event.Some? {
        events' := events' + [out.event.value];
      }
      frameObjs' := Place(frameObjs, k, out.record);
      processedFrames' := processedFrames + 1;
      snapshot := Job(Processing, events', Some(frameObjs'), Some(ProgressMessage(processedFrames', |run.frames|)),
                      Some(|run.frames|), Some(processedFrames'));
      jobs := jobs[run.fileId := snapshot];
    }

    /** One batch, lines 233-235: frames i .. end-1 start together and finish in any order. */
    method RunBatch(run: Run, i: nat, end: nat,
                    frameObjs: seq<Option<FrameRecord>>, events: seq<Event>, published: seq<Job>, order: seq<nat>,
                    ghost before: map<string, Job>)
      returns (frameObjs': seq<Option<FrameRecord>>, events': seq<Event>, published': seq<Job>, order': seq<nat>)
      modifies this
      requires i % Concurrency == 0 && i < end <= i + Concurrency && end <= |run.frames|
      requires |order| == i && (forall k :: 0 <= k < i ==> k in order) && BatchedPrefix(order, i)
      requires Tracks(run, order, frameObjs, events, published)
      requires jobs == Stored(before, run.fileId, published)
      requires Valid()
      ensures Valid()
      ensures |order'| == end && (forall k :: 0 <= k < end ==> k in order') && BatchedPrefix(order', end)
      ensures Tracks(run, order', frameObjs', events', published')
      ensures jobs == Stored(before, run.fileId, published')
    {
      frameObjs', events', published', order' := frameObjs, events, published, order;
      var processedFrames := i;
      var pending := Batch(i, end);
      BatchStart(run, i, end, order, frameObjs, events, published);
      while pending != {}
        invariant BatchInvariant(run, i, end, pending, order', frameObjs', events', published')
        invariant |order'| == processedFrames
        invariant jobs == Stored(before, run.fileId, published')
        invariant Valid()
        decreases |pending|
      {
        var k :| k in pending;
        frameObjs', events', published', order', processedFrames :=
          SettleFrame(run, i, end, pending, k, frameObjs', events', published', order', processedFrames, before);
        pending := pending - {k};
      }
      BatchEnd(run, i, end, order', frameObjs', events', published');
    }

    /** Frame k of the batch in flight settles: processFrame runs for it and the batch state moves on. */
    method SettleFrame(run: Run, i: nat, end: nat, pending: set<nat>, k: nat,
                       frameObjs: seq<Option<FrameRecord>>, events: seq<Event>, published: seq<Job>, order: seq<nat>,
                       processedFrames: nat, ghost before: map<string, Job>)
      returns (frameObjs': seq<Option<FrameRecord>>, events': seq<Event>, published': seq<Job>, order': seq<nat>,
               processedFrames': nat)
      modifies this
      requires BatchInvariant(run, i, end, pending, order, frameObjs, events, published) && k in pending
      requires |order| == processedFrames
      requires jobs == Stored(before, run.fileId, published)
      requires Valid()
      ensures Valid()
      ensures BatchInvariant(run, i, end, pending - {k}, order', frameObjs', events', published')
      ensures |order'| == processedFrames' && order' == order + [k]
      ensures jobs == Stored(before, run.fileId, published')
    {
      ghost var prev := jobs;
      var snapshot;
      frameObjs', events', processedFrames', snapshot := ProcessFrame(run, k, frameObjs, events, processedFrames);
      BatchStep(run, i, end, pending, order, frameObjs, events, published, k, frameObjs', events', snapshot);
      StoredExtend(before, run.fileId, published, published + [snapshot], prev, jobs);
      published' := published + [snapshot];
      order' := order + [k];
      assert snapshot == Progress(run, order');
      ProgressWellFormed(run, order');
      StoreWellFormed(prev, run.fileId, snapshot);
    }

    /** The batch loop, lines 232-240: batches of five in order, each run to the end
        before the next starts, with a pause between two batches. */
    method RunBatches(run: Run)
      returns (frameObjs: seq<Option<FrameRecord>>, events: seq<Event>, published: seq<Job>, order: seq<nat>, pauses: nat)
      modifies this
      requires Valid()
      ensures Valid()
      ensures BatchedOrder(order, |run.frames|)
      ensures Tracks(run, order, frameObjs, events, published)
      ensures pauses == Pauses(|run.frames|)
      ensures jobs == Stored(old(jobs), run.fileId, published)
    {
      var n := |run.frames|;
      frameObjs, events, published, order, pauses := [], [], [], [], 0;
      ghost var before := jobs;
      var i := 0;
      while i < n
        invariant i % Concurrency == 0
        invariant |order| == (if i < n then i else n)
        invariant (forall k :: 0 <= k < |order| ==> k in order) && BatchedPrefix(order, |order|)
        invariant Tracks(run, order, frameObjs, events, published)
        invariant jobs == Stored(before, run.fileId, published)
        invariant pauses == if i < n then i / Concurrency else Pauses(n)
        invariant Valid()
      {
        var end := if i + Concurrency < n then i + Concurrency else n;
        frameObjs, events, published, order := RunBatch(run, i, end, frameObjs, events, published, order, before);
        if i + Concurrency < n {
          pauses := pauses + 1;
        }
        PauseStep(i, n);
        i := i + Concurrency;
      }
    }

    /** Lines 246-253: the `completed` snapshot, stored after the last batch. */
    method StoreCompleted(run: Run, frameObjs: seq<Option<FrameRecord>>, events: seq<Event>,
                          published: seq<Job>, order: seq<nat>, ghost before: map<string, Job>)
      returns (published': seq<Job>)
      modifies this
      requires AllWellFormed(before)
      requires BatchedOrder(order, |run.frames|) && Tracks(run, order, frameObjs, events, published)
      requires jobs == Stored(before, run.fileId, published)
      ensures Valid()
      ensures InRange(run, order)
      ensures |published'| == |run.frames| + 1
      ensures PublishedAlong(run, published'[..|run.frames|], order)
      ensures published'[|run.frames|] == Finished(run, order)
      ensures jobs == before[run.fileId := Finished(run, order)]
    {
      var n := |run.frames|;
      var final := Job(Completed, events, Some(frameObjs), Some(CompleteMessage(|events|, n)), Some(n), Some(n));
      assert final == Finished(run, order);
      FinishedWellFormed(run, order);
      StoreWellFormed(before, run.fileId, final);
      ghost var prev := jobs;
      jobs := jobs[run.fileId := final];
      StoredExtend(before, run.fileId, published, published + [final], prev, jobs);
      assert (published + [final])[..n] == published;
      published' := published + [final];
    }

    /** processVideo(fileId, videoPath): a `failed` snapshot when extraction fails,
        otherwise the run of all frames. */
    method ProcessVideo(fileId: string, outputDir: string, decoder: VideoProcessor.DecoderRun,
                        io: nat -> LlmService.FrameIo, parse: string -> Option<Js.Value>,
                        relative: string -> string)
      returns (published: seq<Job>, order: seq<nat>, pauses: nat)
      modifies this
      requires Valid()
      ensures Valid()
      ensures VideoProcessor.ExtractFrames(outputDir, decoder).Err? ==>
        published == [FailedJob] && order == [] && pauses == 0 && jobs == old(jobs)[fileId := FailedJob]
      ensures VideoProcessor.ExtractFrames(outputDir, decoder).Ok? ==>
        var frames := VideoProcessor.ExtractFrames(outputDir, decoder).value;
        var run := Run(fileId, frames, Classifier(frames, io, parse), relative);
        var n := |run.frames|;
        && BatchedOrder(order, n)
        && InRange(run, order)
        && pauses == Pauses(n)
        && |published| == n + 1
        && PublishedAlong(run, published[..n], order)
        && published[n] == Finished(run, order)
        && jobs == old(jobs)[fileId := Finished(run, order)]
    {
      var extracted := VideoProcessor.ExtractFrames(outputDir, decoder);
      if extracted.Err? {
        StoreWellFormed(jobs, fileId, FailedJob);
        jobs := jobs[fileId := FailedJob];
        return [FailedJob], [], 0;
      }
      var frames := extracted.value;
      var run := Run(fileId, frames, Classifier(frames, io, parse), relative);
      var frameObjs, events;
      frameObjs, events, published, order, pauses := RunBatches(run);
      published := StoreCompleted(run, frameObjs, events, published, order, old(jobs));
    }
  }

  /** What GET /results/:fileId answers: 404, 400, or the events and the frames (`[]` when absent). */
  datatype ResultsReply = Unknown | NotComplete | Delivered(events: seq<Event>, frames: seq<Option<FrameRecord>>)
}
