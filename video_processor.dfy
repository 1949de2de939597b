/**
 * The frame source of backend/src/services/videoProcessor.ts: the HH:MM:SS
 * timestamp formatter and what extractFrames does once the decoder has run:
 * keep the `frame_*.jpg` files of the output directory, order them by the
 * number in their name and give the k-th one the timestamp of second 5*k.
 * The probe and decoder processes, the directory creation and the directory
 * listing are inputs here (a DecoderRun).
 */
module VideoProcessor {
  import opened Wrappers
  import Js

  /** One still is sampled every 5 seconds (`fps=1/5`), so frame k is at second 5*k. */
  const SampleInterval: nat := 5

  datatype Frame = Frame(timestamp: string, framePath: string)

  // ---------------------------------------------------------------- timestamps

  /** Two-digit, zero-padded field as `n.toString().padStart(2, '0')` prints it. */
  function Field(n: nat): string {
    Js.PadStart(Js.Dec(n), 2, '0')
  }

  /** formatTimestamp: hours, minutes and seconds of a whole number of seconds, joined by colons. */
  function FormatTimestamp(seconds: nat): (t: string)
    ensures |t| >= 8 && t[|t| - 6] == ':' && t[|t| - 3] == ':'
  {
    var hours := seconds / 3600;
    var minutes := (seconds % 3600) / 60;
    var secs := seconds % 60;
    Field(hours) + ":" + Field(minutes) + ":" + Field(secs)
  }

  /** Digits, a colon, two digits, a colon, two digits. */
  predicate TimestampShaped(t: string) {
    && |t| >= 8 && t[|t| - 6] == ':' && t[|t| - 3] == ':'
    && Js.AllDigits(t[..|t| - 6]) && Js.AllDigits(t[|t| - 5..|t| - 3]) && Js.AllDigits(t[|t| - 2..])
  }

  /** A left inverse of FormatTimestamp (FormatTimestampRoundTrip): the last two fields are two digits each,
      the hours field is everything before them. */
  function ParseTimestamp(t: string): Option<nat> {
    if TimestampShaped(t) then
      Some(Js.DigitsValue(t[..|t| - 6]) * 3600 + Js.DigitsValue(t[|t| - 5..|t| - 3]) * 60
           + Js.DigitsValue(t[|t| - 2..]))
    else
      None
  }

  /** A padded field is all digits and still denotes n: padStart only adds
      leading zeros, and a numeral of two or more digits is kept whole. */
  lemma FieldValue(n: nat)
    ensures Js.AllDigits(Field(n)) && Js.DigitsValue(Field(n)) == n
    ensures |Field(n)| == if n < 100 then 2 else |Js.Dec(n)|
    ensures n >= 100 ==> Field(n) == Js.Dec(n)
  {
    var d := Js.Dec(n);
    if |d| < 2 {
      var f := Field(n);
      assert f == ['0'] + d;
      assert f[..1] == ['0'];
      assert Js.DigitsValue(f[..1]) == 0;
    }
  }

  /** The split of a number of seconds into hours, minutes below 60 and seconds below 60. */
  lemma TimeSplit(seconds: nat)
    ensures (seconds % 3600) / 60 < 60 && seconds % 60 < 60
    ensures seconds == (seconds / 3600) * 3600 + ((seconds % 3600) / 60) * 60 + seconds % 60
    ensures seconds < 360000 ==> seconds / 3600 < 100
    ensures seconds >= 360000 ==> seconds / 3600 >= 100
  {
    var q, r := seconds / 3600, seconds % 3600;
    assert seconds == q * 3600 + r && r < 3600;
    var m, s := r / 60, r % 60;
    assert r == m * 60 + s && s < 60;
    assert seconds == (q * 60 + m) * 60 + s;
    assert seconds % 60 == s;
  }

  lemma ParseShaped(t: string, a: nat, b: nat, c: nat, total: nat)
    requires TimestampShaped(t)
    requires a == Js.DigitsValue(t[..|t| - 6]) && b == Js.DigitsValue(t[|t| - 5..|t| - 3])
    requires c == Js.DigitsValue(t[|t| - 2..]) && total == a * 3600 + b * 60 + c
    ensures ParseTimestamp(t) == Some(total)
  {
  }

  /** Where the three fields of `h:m:s` sit when the last two have two characters. */
  lemma JoinedParts(h: string, m: string, s: string, t: string)
    requires |h| >= 2 && |m| == 2 && |s| == 2 && t == h + ":" + m + ":" + s
    ensures |t| == |h| + 6 && t[..|t| - 6] == h && t[|t| - 5..|t| - 3] == m && t[|t| - 2..] == s
    ensures t[|t| - 6] == ':' && t[|t| - 3] == ':'
  {
  }

  /** Three digit strings joined by colons, the last two of two digits, parse back field by field. */
  lemma ParseJoined(h: string, m: string, s: string, t: string, a: nat, b: nat, c: nat, total: nat)
    requires Js.AllDigits(h) && Js.AllDigits(m) && Js.AllDigits(s)
    requires |h| >= 2 && |m| == 2 && |s| == 2 && t == h + ":" + m + ":" + s
    requires a == Js.DigitsValue(h) && b == Js.DigitsValue(m) && c == Js.DigitsValue(s)
    requires total == a * 3600 + b * 60 + c
    ensures ParseTimestamp(t) == Some(total)
  {
    JoinedParts(h, m, s, t);
    assert TimestampShaped(t);
    ParseShaped(t, a, b, c, total);
  }

  /** Three printed fields joined by colons read back as h*3600 + m*60 + s. */
  lemma JoinedFieldsValue(h: nat, m: nat, s: nat, t: string, total: nat)
    requires m < 60 && s < 60 && total == h * 3600 + m * 60 + s
    requires t == Field(h) + ":" + Field(m) + ":" + Field(s)
    ensures ParseTimestamp(t) == Some(total)
  {
    FieldDigits(h, Field(h));
    FieldDigits(m, Field(m));
    FieldDigits(s, Field(s));
    ParseJoined(Field(h), Field(m), Field(s), t, h, m, s, total);
  }

  lemma FieldDigits(n: nat, f: string)
    requires f == Field(n)
    ensures Js.AllDigits(f) && Js.DigitsValue(f) == n && |f| >= 2 && (n < 100 ==> |f| == 2)
  {
    FieldValue(n);
  }

  /** Round trip: reading the printed fields back gives hours*3600 + minutes*60 + secs = seconds,
      minutes and seconds being two-digit fields below 60. */
  lemma FormatTimestampRoundTrip(seconds: nat)
    ensures ParseTimestamp(FormatTimestamp(seconds)) == Some(seconds)
  {
    var h, m, s := seconds / 3600, (seconds % 3600) / 60, seconds % 60;
    TimeSplit(seconds);
    JoinedFieldsValue(h, m, s, FormatTimestamp(seconds), seconds);
  }

  /** Below 100 hours the timestamp is exactly HH:MM:SS: eight characters,
      colons at positions 2 and 5, digits everywhere else. */
  lemma FormatTimestampShape(seconds: nat)
    requires seconds < 360000
    ensures |FormatTimestamp(seconds)| == 8
    ensures FormatTimestamp(seconds)[2] == ':' && FormatTimestamp(seconds)[5] == ':'
    ensures forall k :: 0 <= k < 8 && k != 2 && k != 5 ==> Js.IsDigit(FormatTimestamp(seconds)[k])
  {
    var h, m, s := seconds / 3600, (seconds % 3600) / 60, seconds % 60;
    TimeSplit(seconds);
    FieldDigits(h, Field(h));
    FieldDigits(m, Field(m));
    FieldDigits(s, Field(s));
    ShortJoined(Field(h), Field(m), Field(s), FormatTimestamp(seconds));
  }

  /** Three two-digit fields joined by colons: colons at 2 and 5, digits elsewhere. */
  lemma ShortJoined(a: string, b: string, c: string, t: string)
    requires |a| == 2 && |b| == 2 && |c| == 2 && Js.AllDigits(a) && Js.AllDigits(b) && Js.AllDigits(c)
    requires t == a + ":" + b + ":" + c
    ensures |t| == 8 && t[2] == ':' && t[5] == ':'
    ensures forall k :: 0 <= k < 8 && k != 2 && k != 5 ==> Js.IsDigit(t[k])
  {
    forall k | 0 <= k < 8 && k != 2 && k != 5
      ensures Js.IsDigit(t[k])
    {
      if k < 2 {
        assert t[k] == a[k] && a[k] in a;
      } else if k < 5 {
        assert t[k] == b[k - 3] && b[k - 3] in b;
      } else {
        assert t[k] == c[k - 6] && c[k - 6] in c;
      }
    }
  }

  /** From 100 hours on, padding never truncates: the hours field is the full numeral. */
  lemma FormatTimestampLongHours(seconds: nat)
    requires seconds >= 360000
    ensures |FormatTimestamp(seconds)| > 8
    ensures FormatTimestamp(seconds)[..|FormatTimestamp(seconds)| - 6] == Js.Dec(seconds / 3600)
  {
    TimeSplit(seconds);
    LongHoursField(seconds / 3600, (seconds % 3600) / 60, seconds % 60);
  }

  lemma LongHoursField(h: nat, m: nat, s: nat)
    requires h >= 100 && m < 60 && s < 60
    ensures var t := Field(h) + ":" + Field(m) + ":" + Field(s);
      |t| > 8 && t[..|t| - 6] == Js.Dec(h)
  {
    FieldValue(h);
    FieldValue(m);
    FieldValue(s);
    JoinedParts(Field(h), Field(m), Field(s), Field(h) + ":" + Field(m) + ":" + Field(s));
  }

  // ---------------------------------------------------------------- frame files

  /** `f.startsWith('frame_') && f.endsWith('.jpg')` */
  predicate IsFrameFileName(name: string) {
    Js.StartsWith(name, "frame_") && Js.EndsWith(name, ".jpg")
  }

  /** The sort key of a name of the form `frame_<digits>.jpg`: what parseInt reads
      between the prefix and the extension. Other names have no key (see README). */
  function FrameNumber(name: string): (r: Option<nat>)
    ensures r.Some? ==> IsFrameFileName(name) && |name| > 10
  {
    if IsFrameFileName(name) && |name| > 10 && Js.AllDigits(name[6..|name| - 4])
    then Some(Js.DigitsValue(name[6..|name| - 4]))
    else None
  }

  /** The names the decoder writes (`frame_%d.jpg`) carry their own number as sort key. */
  lemma FrameNumberOfName(n: nat)
    ensures FrameNumber("frame_" + Js.Dec(n) + ".jpg") == Some(n)
  {
    var name := "frame_" + Js.Dec(n) + ".jpg";
    assert name[..6] == "frame_";
    assert name[|name| - 4..] == ".jpg";
    assert name[6..|name| - 4] == Js.Dec(n);
  }

  /** The comparator `numA - numB` says "a goes first" only when both keys exist and a's is smaller. */
  predicate NumberedBefore(a: string, b: string) {
    FrameNumber(a).Some? && FrameNumber(b).Some? && FrameNumber(a).value < FrameNumber(b).value
  }

  predicate AllNumbered(names: seq<string>) {
    forall k :: 0 <= k < |names| ==> FrameNumber(names[k]).Some?
  }

  /** Non-decreasing frame numbers. */
  predicate SortedByNumber(names: seq<string>) {
    forall i, j :: 0 <= i < j < |names| && FrameNumber(names[i]).Some? && FrameNumber(names[j]).Some?
      ==> FrameNumber(names[i]).value <= FrameNumber(names[j]).value
  }

  /** `files.filter(f => f.startsWith('frame_') && f.endsWith('.jpg'))`: exactly the
      frame-named files, each as often as it is listed. */
  function KeepFrameFiles(files: seq<string>): (kept: seq<string>)
    ensures |kept| <= |files|
    ensures forall f :: f in kept ==> IsFrameFileName(f)
    ensures forall f :: IsFrameFileName(f) ==> multiset(kept)[f] == multiset(files)[f]
  {
    if files == [] then []
    else
      var rest := KeepFrameFiles(files[1..]);
      assert files == [files[0]] + files[1..];
      if IsFrameFileName(files[0]) then [files[0]] + rest else rest
  }

  /** One insertion step of the numeric sort: `x` goes in front of the first name not numbered before it. */
  function InsertByNumber(x: string, names: seq<string>): (r: seq<string>)
    ensures |r| == |names| + 1
    ensures multiset(r) == multiset(names) + multiset{x}
    ensures forall y :: y in r ==> y in names || y == x
  {
    if names == [] || !NumberedBefore(names[0], x) then
      [x] + names
    else
      assert names == [names[0]] + names[1..];
      [names[0]] + InsertByNumber(x, names[1..])
  }

  /** `frameFiles.sort((a, b) => numA - numB)`, modelled by its result: a permutation of the names. */
  function SortByNumber(names: seq<string>): (r: seq<string>)
    ensures |r| == |names|
    ensures multiset(r) == multiset(names)
  {
    if names == [] then []
    else
      assert names == [names[0]] + names[1..];
      InsertByNumber(names[0], SortByNumber(names[1..]))
  }

  /** A numbered name no larger than every name of a sorted numbered list can go in front. */
  lemma SortedCons(a: string, names: seq<string>)
    requires FrameNumber(a).Some? && AllNumbered(names) && SortedByNumber(names)
    requires forall k :: 0 <= k < |names| ==> FrameNumber(a).value <= FrameNumber(names[k]).value
    ensures AllNumbered([a] + names) && SortedByNumber([a] + names)
  {
    var r := [a] + names;
    assert forall k :: 1 <= k < |r| ==> r[k] == names[k - 1];
  }

  lemma {:induction false} InsertKeepsOrder(x: string, names: seq<string>)
    requires AllNumbered(names) && FrameNumber(x).Some? && SortedByNumber(names)
    ensures AllNumbered(InsertByNumber(x, names)) && SortedByNumber(InsertByNumber(x, names))
  {
    if names == [] || !NumberedBefore(names[0], x) {
      SortedCons(x, names);
    } else {
      var tail := names[1..];
      var rest := InsertByNumber(x, tail);
      InsertKeepsOrder(x, tail);
      forall k | 0 <= k < |rest|
        ensures FrameNumber(names[0]).value <= FrameNumber(rest[k]).value
      {
        assert rest[k] in rest;
        if rest[k] != x {
          assert rest[k] in tail;
          var j :| 0 <= j < |tail| && tail[j] == rest[k];
          assert names[j + 1] == rest[k];
        }
      }
      SortedCons(names[0], rest);
    }
  }

  /** When every kept name is `frame_<digits>.jpg`, the sort puts them in
      non-decreasing numeric order, so `frame_10.jpg` comes after `frame_9.jpg`. */
  lemma {:induction false} SortByNumberOrders(names: seq<string>)
    requires AllNumbered(names)
    ensures AllNumbered(SortByNumber(names)) && SortedByNumber(SortByNumber(names))
  {
    if names != [] {
      SortByNumberOrders(names[1..]);
      InsertKeepsOrder(names[0], SortByNumber(names[1..]));
    }
  }

  /** `path.join(framesOutputDir, file)` for a file name that has no separator. */
  function JoinPath(dir: string, file: string): string {
    dir + "/" + file
  }

  /** The frame list extractFrames resolves with: the kept names in numeric order,
      frame k carrying the timestamp of second 5*k whatever number its name holds. */
  function FramesFromListing(outputDir: string, files: seq<string>): (frames: seq<Frame>)
    ensures |frames| == |KeepFrameFiles(files)|
  {
    var names := SortByNumber(KeepFrameFiles(files));
    seq(|names|, k requires 0 <= k < |names| =>
      Frame(FormatTimestamp(k * SampleInterval), JoinPath(outputDir, names[k])))
  }

  /** What the frame list promises: one frame per kept file, each path naming a
      kept file and each kept file named as often as it was listed; timestamps
      by position, read back to 5*k and so strictly increasing; and numeric
      order of the names whenever every kept name is `frame_<digits>.jpg`. */
  lemma FramesFromListingProperties(outputDir: string, files: seq<string>)
    ensures var frames := FramesFromListing(outputDir, files);
      var names := SortByNumber(KeepFrameFiles(files));
      && |frames| == |names|
      && (forall k :: 0 <= k < |frames| ==>
            frames[k].framePath == JoinPath(outputDir, names[k]) && IsFrameFileName(names[k])
            && ParseTimestamp(frames[k].timestamp) == Some(k * SampleInterval))
      && (forall f :: IsFrameFileName(f) ==> multiset(names)[f] == multiset(files)[f])
      && (forall i, j :: 0 <= i < j < |frames| ==>
            ParseTimestamp(frames[i].timestamp).value < ParseTimestamp(frames[j].timestamp).value)
      && (AllNumbered(KeepFrameFiles(files)) ==> SortedByNumber(names))
  {
    var kept := KeepFrameFiles(files);
    if AllNumbered(kept) {
      SortByNumberOrders(kept);
    }
    var frames := FramesFromListing(outputDir, files);
    var names := SortByNumber(kept);
    forall k | 0 <= k < |frames|
      ensures frames[k].framePath == JoinPath(outputDir, names[k]) && IsFrameFileName(names[k])
      ensures ParseTimestamp(frames[k].timestamp) == Some(k * SampleInterval)
    {
      FrameAt(outputDir, files, k);
      FormatTimestampRoundTrip(k * SampleInterval);
    }
  }

  /** Frame k of the list: the k-th name in numeric order, a kept file, at second 5*k. */
  lemma FrameAt(outputDir: string, files: seq<string>, k: nat)
    requires k < |FramesFromListing(outputDir, files)|
    ensures var names := SortByNumber(KeepFrameFiles(files));
      && k < |names| && IsFrameFileName(names[k])
      && FramesFromListing(outputDir, files)[k] == Frame(FormatTimestamp(k * SampleInterval), JoinPath(outputDir, names[k]))
  {
    var kept := KeepFrameFiles(files);
    var names := SortByNumber(kept);
    assert names[k] in multiset(names);
    assert names[k] in kept;
  }

  // ---------------------------------------------------------------- extractFrames

  /** How a child process ended: it could not be spawned ('error'), or it closed
      with an exit code (None when Node reports `null`, i.e. killed by a signal). */
  datatype ProcessExit = SpawnFailed | Closed(code: Option<int>)

  /** Everything extractFrames learns from the outside world. */
  datatype DecoderRun = DecoderRun(
    outputDirCreated: bool,           // fs.mkdir(framesOutputDir, { recursive: true })
    probe: ProcessExit,               // ffprobe for the duration
    decode: ProcessExit,              // ffmpeg writing frame_%d.jpg
    listing: Option<seq<string>>)     // fs.readdir(framesOutputDir), None when it throws

  /** Why the frame list promise is rejected. */
  datatype VideoError =
    | OutputDirFailed
    | ProbeSpawnFailed
    | DurationUnavailable              // 'Failed to get video duration'
    | DecoderSpawnFailed
    | DecoderExited(code: Option<int>) // 'FFmpeg process exited with code ${code}'
    | ListingFailed

  predicate ExitedZero(p: ProcessExit) {
    p == Closed(Some(0))
  }

  /** extractFrames: the frame list, or the first failure along the way. */
  function ExtractFrames(outputDir: string, run: DecoderRun): (r: Result<seq<Frame>, VideoError>)
    ensures r.Ok? <==> run.outputDirCreated && ExitedZero(run.probe) && ExitedZero(run.decode) && run.listing.Some?
    ensures run.outputDirCreated && run.probe.Closed? && !ExitedZero(run.probe) ==> r == Err(DurationUnavailable)
    ensures (run.outputDirCreated && ExitedZero(run.probe) && run.decode.Closed? && !ExitedZero(run.decode))
            ==> r == Err(DecoderExited(run.decode.code))
    ensures r.Ok? ==> r.value == FramesFromListing(outputDir, run.listing.value)
  {
    if !run.outputDirCreated then Err(OutputDirFailed)
    else match run.probe
      case SpawnFailed => Err(ProbeSpawnFailed)
      case Closed(code) =>
        if code != Some(0) then Err(DurationUnavailable)
        else match run.decode
          case SpawnFailed => Err(DecoderSpawnFailed)
          case Closed(code2) =>
            if code2 != Some(0) then Err(DecoderExited(code2))
            else match run.listing
              case None => Err(ListingFailed)
              case Some(files) => Ok(FramesFromListing(outputDir, files))
  }
}
