/**
 * analyzeFrame of backend/src/services/llmService.ts: two requests to a vision
 * model, the second sent only when the first reports bins; each reply is
 * defaulted when empty, cleared of Markdown code fences, trimmed and parsed,
 * with a fixed fallback record when parsing fails; an event is returned only
 * when the second reply names one. Every exception (image read, request,
 * malformed response) ends in `null`.
 *
 * The image read, the two service replies and the clock reading used as the
 * event id are inputs (a FrameIo); JSON.parse is the function `parse`.
 */
module LlmService {
  import opened Wrappers
  import Js

  // ---------------------------------------------------------------- fences

  /** `s.replace(/```json\n?|\n?```/g, '')`: scanning left to right, an opening
      fence (with the newline after it, if any) or a closing fence (with the
      newline before it, if any) is deleted; every other character is kept. */
  function StripFences(s: string): (r: string)
    ensures |r| <= |s|
    decreases |s|
  {
    if |s| >= 3 && s[0] == '`' && s[1] == '`' && s[2] == '`' then
      if |s| >= 7 && s[3] == 'j' && s[4] == 's' && s[5] == 'o' && s[6] == 'n' then
        if |s| >= 8 && s[7] == '\n' then StripFences(s[8..]) else StripFences(s[7..])
      else StripFences(s[3..])
    else if |s| >= 4 && s[0] == '\n' && s[1] == '`' && s[2] == '`' && s[3] == '`' then
      StripFences(s[4..])
    else if s == [] then []
    else [s[0]] + StripFences(s[1..])
  }

  /** Lines 76 and 145: fences removed, then trimmed. */
  function CleanReply(content: string): (r: string)
    ensures r == [] || (!Js.IsWhitespace(r[0]) && !Js.IsWhitespace(r[|r| - 1]))
  {
    Js.Trim(StripFences(content))
  }

  /** No three backticks in a row: nothing either alternative of the pattern can match. */
  predicate NoTripleBacktick(t: string) {
    forall i :: 0 <= i < |t| - 2 ==> !(t[i] == '`' && t[i + 1] == '`' && t[i + 2] == '`')
  }

  /** Text without three backticks in a row has no fence to strip. */
  lemma {:induction false} StripFencesNoFence(t: string)
    requires NoTripleBacktick(t)
    ensures StripFences(t) == t
  {
    if t != [] {
      assert |t| >= 3 ==> !(t[0] == '`' && t[1] == '`' && t[2] == '`');
      assert |t| >= 4 ==> !(t[1] == '`' && t[2] == '`' && t[3] == '`');
      assert t == [t[0]] + t[1..];
      var u := t[1..];
      assert forall i :: 0 <= i < |u| ==> u[i] == t[i + 1];
      StripFencesNoFence(u);
    }
  }

  /** A closing fence after text without three backticks in a row is dropped together with its newline. */
  lemma {:induction false} StripFencesClosing(t: string)
    requires NoTripleBacktick(t)
    ensures StripFences(t + "\n```") == t
  {
    var s := t + "\n```";
    if t == [] {
      assert s == "\n```";
      assert s[4..] == [];
    } else {
      assert forall i :: 0 <= i < |t| ==> s[i] == t[i];
      assert s[|t|] == '\n';
      assert |t| >= 3 ==> !(t[0] == '`' && t[1] == '`' && t[2] == '`');
      assert |t| >= 4 ==> !(t[1] == '`' && t[2] == '`' && t[3] == '`');
      assert s[1..] == t[1..] + "\n```";
      var u := t[1..];
      assert forall i :: 0 <= i < |u| ==> u[i] == t[i + 1];
      StripFencesClosing(u);
    }
  }

  /** A reply wrapped as ```json / body / ``` yields the body, trimmed. */
  lemma CleanFencedReply(body: string)
    requires NoTripleBacktick(body)
    ensures CleanReply("```json\n" + body + "\n```") == Js.Trim(body)
  {
    var rest := body + "\n```";
    assert "```json\n" + body + "\n```" == "```json\n" + rest;
    StripOpeningFence(rest);
    StripFencesClosing(body);
  }

  /** An opening fence with its newline is dropped. */
  lemma StripOpeningFence(rest: string)
    ensures StripFences("```json\n" + rest) == StripFences(rest)
  {
    var s := "```json\n" + rest;
    assert s[0] == '`' && s[1] == '`' && s[2] == '`';
    assert s[3] == 'j' && s[4] == 's' && s[5] == 'o' && s[6] == 'n' && s[7] == '\n';
    assert s[8..] == rest;
  }

  /** A reply without three backticks in a row is only trimmed. */
  lemma CleanPlainReply(t: string)
    requires NoTripleBacktick(t)
    ensures CleanReply(t) == Js.Trim(t)
  {
    StripFencesNoFence(t);
  }

  // ---------------------------------------------------------------- replies

  const PresenceDefault: string := "{\"binsPresent\": false}"
  const IssueDefault: string := "{\"eventFound\": null}"
  const ParseErrorReason: string := "Error parsing response"
  const LocationPlaceholder: string := "[gps location here]"
  const DriverPlaceholder: string := "[driver name here]"

  /** `{ binsPresent: false, reason: "Error parsing response" }` */
  const PresenceFallback: Js.Value :=
    Js.Obj(map["binsPresent" := Js.Bool(false), "reason" := Js.Str(ParseErrorReason)])

  /** `{ eventFound: null, reason: "Error parsing response" }` */
  const IssueFallback: Js.Value :=
    Js.Obj(map["eventFound" := Js.Null, "reason" := Js.Str(ParseErrorReason)])

  /** What JSON.parse gives for the two default texts. */
  predicate ParsesDefaults(parse: string -> Option<Js.Value>) {
    && parse(PresenceDefault) == Some(Js.Obj(map["binsPresent" := Js.Bool(false)]))
    && parse(IssueDefault) == Some(Js.Obj(map["eventFound" := Js.Null]))
  }

  /** How one chat-completion request ended: the request itself threw, the
      response had no `choices[0]`, or it carried a message content (null or a string). */
  datatype Reply = Rejected | NoChoice | Answered(content: Option<string>)

  /** The outside world as one analyzeFrame call sees it. */
  datatype FrameIo = FrameIo(
    imageRead: bool,     // fs.readFile(framePath) succeeded
    presence: Reply,     // the bin-presence request
    issue: Reply,        // the issue request
    clock: string)       // Date.now().toString() when the event is built

  /** The event record analyzeFrame resolves with. */
  datatype Detection = Detection(
    id: string,
    timestamp: string,
    eventType: Js.Value,
    reason: Js.Value,
    location: string,
    driver: string,
    thumbnailUrl: string)

  /** The result of analyzeFrame, and how many requests it sent to the service. */
  datatype Analysis = Analysis(detection: Option<Detection>, requests: nat)

  /** `message.content || default` */
  function ReplyText(content: Option<string>, default: string): (text: string)
    ensures content.None? || content == Some("") ==> text == default
    ensures content.Some? && content.value != "" ==> text == content.value
    ensures text == default || content == Some(text)
  {
    match content
    case None => default
    case Some(s) => if s == "" then default else s
  }

  /** With a non-empty default the text a stage parses is never empty. */
  lemma ReplyTextNonEmpty(content: Option<string>, default: string)
    requires default != ""
    ensures ReplyText(content, default) != ""
  {
  }

  /** The record one stage works with: the parsed cleaned reply, or the fallback when parsing throws. */
  function StageRecord(content: Option<string>, default: string, fallback: Js.Value,
                       parse: string -> Option<Js.Value>): (v: Js.Value)
    ensures parse(CleanReply(ReplyText(content, default))).None? ==> v == fallback
    ensures parse(CleanReply(ReplyText(content, default))).Some? ==>
              v == parse(CleanReply(ReplyText(content, default))).value
    ensures v == fallback || parse(CleanReply(ReplyText(content, default))) == Some(v)
  {
    match parse(CleanReply(ReplyText(content, default)))
    case Some(v) => v
    case None => fallback
  }

  /** One stage of analyzeFrame: the record, when the request answered and the
      record's `key` is truthy; None when the stage makes analyzeFrame return null
      (the request threw, no choice came back, reading `key` threw, or it is falsy). */
  function Stage(reply: Reply, default: string, fallback: Js.Value, key: string,
                 parse: string -> Option<Js.Value>): (passed: Option<Js.Value>)
    ensures passed.Some? ==> reply.Answered? && passed.value == StageRecord(reply.content, default, fallback, parse)
    ensures passed.Some? ==> Js.Get(passed.value, key).Got? && Js.Truthy(Js.Get(passed.value, key).value)
  {
    match reply
    case Rejected => None
    case NoChoice => None
    case Answered(content) =>
      var record := StageRecord(content, default, fallback, parse);
      match Js.Get(record, key)
      case Thrown => None
      case Got(flag) => if Js.Truthy(flag) then Some(record) else None
  }

  /** analyzeFrame(framePath, timestamp). */
  function AnalyzeFrame(framePath: string, timestamp: string, io: FrameIo,
                        parse: string -> Option<Js.Value>): (a: Analysis)
    ensures a.requests <= 2
    ensures a.detection.Some? ==> a.requests == 2
  {
    if !io.imageRead then Analysis(None, 0)
    else match Stage(io.presence, PresenceDefault, PresenceFallback, "binsPresent", parse)
      case None => Analysis(None, 1)
      case Some(_) =>
        match Stage(io.issue, IssueDefault, IssueFallback, "eventFound", parse)
        case None => Analysis(None, 2)
        case Some(issue) =>
          Analysis(Some(Detection(io.clock, timestamp, Js.Get(issue, "eventFound").value,
                                  Js.Get(issue, "reason").value,
                                  LocationPlaceholder, DriverPlaceholder, framePath)), 2)
  }

  // ---------------------------------------------------------------- properties

  /** A stage passes exactly when the request answered and the (parsed or fallback)
      record's key reads as a truthy value. */
  lemma StagePasses(reply: Reply, default: string, fallback: Js.Value, key: string,
                    parse: string -> Option<Js.Value>)
    ensures Stage(reply, default, fallback, key, parse).Some? <==>
      && reply.Answered?
      && Js.Get(StageRecord(reply.content, default, fallback, parse), key).Got?
      && Js.Truthy(Js.Get(StageRecord(reply.content, default, fallback, parse), key).value)
  {
  }

  /** The second request is sent exactly when the image was read and the first
      stage passes; the first is sent whenever the image was read. */
  lemma RequestsSent(framePath: string, timestamp: string, io: FrameIo, parse: string -> Option<Js.Value>)
    ensures var a := AnalyzeFrame(framePath, timestamp, io, parse);
      && (a.requests == 0 <==> !io.imageRead)
      && (a.requests == 2 <==>
            io.imageRead && Stage(io.presence, PresenceDefault, PresenceFallback, "binsPresent", parse).Some?)
  {
  }

  /** An event comes back exactly when both stages pass, and it is the second
      reply's label and reason with the given timestamp, the placeholders and the frame path. */
  lemma DetectionExactly(framePath: string, timestamp: string, io: FrameIo, parse: string -> Option<Js.Value>)
    ensures var a := AnalyzeFrame(framePath, timestamp, io, parse);
      && (a.detection.Some? <==>
            && io.imageRead
            && Stage(io.presence, PresenceDefault, PresenceFallback, "binsPresent", parse).Some?
            && Stage(io.issue, IssueDefault, IssueFallback, "eventFound", parse).Some?)
      && (a.detection.Some? ==>
            && io.issue.Answered?
            && var issue := StageRecord(io.issue.content, IssueDefault, IssueFallback, parse);
            && a.detection.value.eventType == Js.Get(issue, "eventFound").value
            && Js.Truthy(a.detection.value.eventType)
            && a.detection.value.reason == Js.Get(issue, "reason").value
            && a.detection.value.timestamp == timestamp
            && a.detection.value.location == LocationPlaceholder
            && a.detection.value.driver == DriverPlaceholder
            && a.detection.value.thumbnailUrl == framePath
            && a.detection.value.id == io.clock)
  {
  }

  /** Text with nothing to strip or trim is its own cleaned form. */
  lemma CleanAlreadyClean(t: string)
    requires NoTripleBacktick(t)
    requires t != [] && !Js.IsWhitespace(t[0]) && !Js.IsWhitespace(t[|t| - 1])
    ensures CleanReply(t) == t
  {
    StripFencesNoFence(t);
    Js.TrimNothingToRemove(t);
  }

  lemma DefaultsAreClean()
    ensures CleanReply(PresenceDefault) == PresenceDefault
    ensures CleanReply(IssueDefault) == IssueDefault
  {
    assert PresenceDefault[0] == '{';
    assert IssueDefault[0] == '{';
    assert PresenceDefault[|PresenceDefault| - 1] == '}';
    assert IssueDefault[|IssueDefault| - 1] == '}';
    assert forall i :: 0 <= i < |PresenceDefault| ==> PresenceDefault[i] != '`';
    assert forall i :: 0 <= i < |IssueDefault| ==> IssueDefault[i] != '`';
    CleanAlreadyClean(PresenceDefault);
    CleanAlreadyClean(IssueDefault);
  }

  /** An empty or null first reply defaults to `{"binsPresent": false}`: no event, no second request. */
  lemma EmptyPresenceReply(framePath: string, timestamp: string, io: FrameIo, parse: string -> Option<Js.Value>)
    requires ParsesDefaults(parse)
    requires io.imageRead && (io.presence == Answered(None) || io.presence == Answered(Some("")))
    ensures AnalyzeFrame(framePath, timestamp, io, parse) == Analysis(None, 1)
  {
    DefaultsAreClean();
    EmptyRecord(io.presence, PresenceDefault, PresenceFallback, Js.Obj(map["binsPresent" := Js.Bool(false)]), parse);
    EmptyStage(io.presence, PresenceDefault, PresenceFallback, "binsPresent", Js.Bool(false), parse);
  }

  /** A first reply that does not parse counts as "no bins": no event, no second request. */
  lemma UnparsablePresenceReply(framePath: string, timestamp: string, io: FrameIo, parse: string -> Option<Js.Value>)
    requires io.imageRead && io.presence.Answered?
    requires parse(CleanReply(ReplyText(io.presence.content, PresenceDefault))).None?
    ensures AnalyzeFrame(framePath, timestamp, io, parse) == Analysis(None, 1)
  {
  }

  /** An empty or null second reply defaults to `{"eventFound": null}`: no event. */
  lemma EmptyIssueReply(framePath: string, timestamp: string, io: FrameIo, parse: string -> Option<Js.Value>)
    requires ParsesDefaults(parse)
    requires io.issue == Answered(None) || io.issue == Answered(Some(""))
    ensures AnalyzeFrame(framePath, timestamp, io, parse).detection == None
  {
    DefaultsAreClean();
    EmptyRecord(io.issue, IssueDefault, IssueFallback, Js.Obj(map["eventFound" := Js.Null]), parse);
    EmptyStage(io.issue, IssueDefault, IssueFallback, "eventFound", Js.Null, parse);
    FailedIssueStage(framePath, timestamp, io, parse);
  }

  /** Whatever the first stage did, a second stage that does not pass leaves no event. */
  lemma FailedIssueStage(framePath: string, timestamp: string, io: FrameIo, parse: string -> Option<Js.Value>)
    requires Stage(io.issue, IssueDefault, IssueFallback, "eventFound", parse) == None
    ensures AnalyzeFrame(framePath, timestamp, io, parse).detection == None
  {
  }

  /** A stage whose reply is empty reads its default text, which parses to a record
      holding a falsy value under the stage's key, so the stage does not pass. */
  lemma EmptyStage(reply: Reply, default: string, fallback: Js.Value, key: string, flag: Js.Value,
                   parse: string -> Option<Js.Value>)
    requires reply.Answered?
    requires StageRecord(reply.content, default, fallback, parse) == Js.Obj(map[key := flag])
    requires !Js.Truthy(flag)
    ensures Stage(reply, default, fallback, key, parse) == None
  {
    var fields := map[key := flag];
    assert key in fields && fields[key] == flag;
    assert Js.Get(Js.Obj(fields), key) == Js.Got(flag);
  }

  /** The record of a stage whose reply is empty is what its default text parses to. */
  lemma EmptyRecord(reply: Reply, default: string, fallback: Js.Value, parsed: Js.Value,
                    parse: string -> Option<Js.Value>)
    requires reply == Answered(None) || reply == Answered(Some(""))
    requires CleanReply(default) == default && parse(default) == Some(parsed)
    ensures StageRecord(reply.content, default, fallback, parse) == parsed
  {
    assert ReplyText(reply.content, default) == default;
  }

  /** A second reply that does not parse, or whose `eventFound` is falsy, gives no event. */
  lemma NoIssueReported(framePath: string, timestamp: string, io: FrameIo, parse: string -> Option<Js.Value>)
    requires io.issue.Answered?
    requires var issue := parse(CleanReply(ReplyText(io.issue.content, IssueDefault)));
      issue.None? || (Js.Get(issue.value, "eventFound").Got? && !Js.Truthy(Js.Get(issue.value, "eventFound").value))
    ensures AnalyzeFrame(framePath, timestamp, io, parse).detection == None
  {
    var record := StageRecord(io.issue.content, IssueDefault, IssueFallback, parse);
    assert Js.Get(record, "eventFound").Got? ==> !Js.Truthy(Js.Get(record, "eventFound").value);
    assert Stage(io.issue, IssueDefault, IssueFallback, "eventFound", parse) == None;
    FailedIssueStage(framePath, timestamp, io, parse);
  }

  /** Truthiness, not `=== true`: whatever the first reply parses to, a truthy
      `binsPresent` in it triggers the second request. */
  lemma TruthyPresenceSendsSecondRequest(framePath: string, timestamp: string, io: FrameIo,
                                         parse: string -> Option<Js.Value>, parsed: Js.Value)
    requires io.imageRead && io.presence.Answered?
    requires parse(CleanReply(ReplyText(io.presence.content, PresenceDefault))) == Some(parsed)
    requires Js.Get(parsed, "binsPresent").Got? && Js.Truthy(Js.Get(parsed, "binsPresent").value)
    ensures AnalyzeFrame(framePath, timestamp, io, parse).requests == 2
  {
  }

  /** So a first reply whose binsPresent is the string "false" still triggers the second request. */
  lemma StringFalseSendsSecondRequest(framePath: string, timestamp: string, io: FrameIo,
                                      parse: string -> Option<Js.Value>)
    requires io.imageRead && io.presence.Answered?
    requires parse(CleanReply(ReplyText(io.presence.content, PresenceDefault)))
               == Some(Js.Obj(map["binsPresent" := Js.Str("false")]))
    ensures AnalyzeFrame(framePath, timestamp, io, parse).requests == 2
  {
    var parsed := Js.Obj(map["binsPresent" := Js.Str("false")]);
    assert Js.Get(parsed, "binsPresent") == Js.Got(Js.Str("false"));
    TruthyPresenceSendsSecondRequest(framePath, timestamp, io, parse, parsed);
  }

  /** The parse-failure records read falsy under their stage's key, so a reply
      that does not parse makes its stage fail. */
  lemma UnparsableReplyFailsStage(reply: Reply, parse: string -> Option<Js.Value>)
    requires reply.Answered?
    ensures Js.Get(PresenceFallback, "binsPresent") == Js.Got(Js.Bool(false))
    ensures Js.Get(IssueFallback, "eventFound") == Js.Got(Js.Null)
    ensures parse(CleanReply(ReplyText(reply.content, PresenceDefault))).None? ==>
              Stage(reply, PresenceDefault, PresenceFallback, "binsPresent", parse) == None
    ensures parse(CleanReply(ReplyText(reply.content, IssueDefault))).None? ==>
              Stage(reply, IssueDefault, IssueFallback, "eventFound", parse) == None
  {
  }
}
