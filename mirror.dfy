/**
 * The mirror route (server/src/routes/mirror.ts): a conversation of at least two
 * turns is rendered as a `Manager:`/`Employee:` transcript and sent to the
 * cascade with the route's prompt; the model's output is stripped of a markdown
 * code fence, parsed as JSON, checked for three string fields and answered
 * under the frontend's key names.
 */
module Mirror {
  import opened Wrappers
  import opened Text
  import opened OpenRouter
  import opened Routes

  const MinMessages: nat := 2
  const Temperature: real := 0.7
  const MaxTokens: int := 500

  /** The schema's decision on a request body: well typed, with `.min(2)`
      messages. */
  predicate AcceptsBody(request: RequestJson) {
    request.WellTyped? && |request.conversation.messages| >= MinMessages
  }

  // ----- transcript -----

  function SpeakerLabel(role: Speaker): string {
    if role == UserTurn then "Manager" else "Employee"
  }

  /** One message of the transcript. */
  function TranscriptLine(m: Message): (line: string)
    ensures m.role == UserTurn ==> line == "Manager: " + m.text
    ensures m.role == AiTurn ==> line == "Employee: " + m.text
  {
    SpeakerLabel(m.role) + ": " + m.text
  }

  const Separator: string := "\n\n"

  /** `array.join(sep)`. */
  function Join(parts: seq<string>, sep: string): string
    decreases |parts|
  {
    if parts == [] then ""
    else if |parts| == 1 then parts[0]
    else parts[0] + sep + Join(parts[1..], sep)
  }

  /** Where part `i` starts in the joined string: after every earlier part and
      its separator. */
  function PartStart(parts: seq<string>, sep: string, i: nat): nat
    requires i < |parts|
    decreases i
  {
    if i == 0 then 0 else |parts[0]| + |sep| + PartStart(parts[1..], sep, i - 1)
  }

  /** The first part starts the joined string; the separator follows it unless
      it is the only part. */
  lemma JoinFirst(parts: seq<string>, sep: string)
    requires parts != []
    ensures OccursAt(parts[0], Join(parts, sep), 0)
    ensures |parts| > 1 ==> OccursAt(sep, Join(parts, sep), |parts[0]|)
    ensures |parts| == 1 ==> |Join(parts, sep)| == |parts[0]|
  {
    var joined := Join(parts, sep);
    if |parts| > 1 {
      var rest := Join(parts[1..], sep);
      assert joined == parts[0] + sep + rest;
      OccursSpliced(parts[0], sep, rest);
      OccursPrefix(parts[0], sep + rest);
    } else {
      assert joined == parts[0];
      OccursPrefix(parts[0], []);
    }
  }

  /** Each part starts after the earlier ones and their separators. */
  lemma {:induction false} PartStartNext(parts: seq<string>, sep: string, i: nat)
    requires i + 1 < |parts|
    ensures PartStart(parts, sep, i + 1) == PartStart(parts, sep, i) + |parts[i]| + |sep|
    decreases i
  {
    if i > 0 {
      PartStartNext(parts[1..], sep, i - 1);
    }
  }

  /** The joined string begins with the first part and the separator, then
      the rest joined. */
  lemma JoinCons(parts: seq<string>, sep: string)
    requires |parts| > 1
    ensures Join(parts, sep) == parts[0] + sep + Join(parts[1..], sep)
  {
  }

  /** Part `i` occurs where `PartStart` says. */
  lemma {:induction false} JoinPart(parts: seq<string>, sep: string, i: nat)
    requires i < |parts|
    ensures OccursAt(parts[i], Join(parts, sep), PartStart(parts, sep, i))
    decreases i
  {
    if i == 0 {
      JoinFirst(parts, sep);
    } else {
      JoinCons(parts, sep);
      JoinPart(parts[1..], sep, i - 1);
      OccursShifted(parts[1..][i - 1], parts[0] + sep, Join(parts[1..], sep), PartStart(parts[1..], sep, i - 1));
    }
  }

  /** The separator follows every part but the last. */
  lemma {:induction false} JoinSeparator(parts: seq<string>, sep: string, i: nat)
    requires i + 1 < |parts|
    ensures OccursAt(sep, Join(parts, sep), PartStart(parts, sep, i) + |parts[i]|)
    decreases i
  {
    if i == 0 {
      JoinFirst(parts, sep);
    } else {
      JoinCons(parts, sep);
      JoinSeparator(parts[1..], sep, i - 1);
      OccursShifted(sep, parts[0] + sep, Join(parts[1..], sep), PartStart(parts[1..], sep, i - 1) + |parts[1..][i - 1]|);
    }
  }

  /** The last part ends the joined string. */
  lemma {:induction false} JoinLength(parts: seq<string>, sep: string)
    requires parts != []
    ensures |Join(parts, sep)| == PartStart(parts, sep, |parts| - 1) + |parts[|parts| - 1]|
    decreases |parts|
  {
    if |parts| > 1 {
      JoinCons(parts, sep);
      JoinLength(parts[1..], sep);
    }
  }

  /** The joined string is the parts in order, each followed by the separator
      but the last, and nothing else. */
  lemma JoinLayout(parts: seq<string>, sep: string, i: nat)
    requires i < |parts|
    ensures var joined, start := Join(parts, sep), PartStart(parts, sep, i);
      && OccursAt(parts[i], joined, start)
      && (i + 1 < |parts| ==>
            OccursAt(sep, joined, start + |parts[i]|) && PartStart(parts, sep, i + 1) == start + |parts[i]| + |sep|)
      && (i + 1 == |parts| ==> |joined| == start + |parts[i]|)
  {
    JoinPart(parts, sep, i);
    if i + 1 < |parts| {
      JoinSeparator(parts, sep, i);
      PartStartNext(parts, sep, i);
    } else {
      JoinLength(parts, sep);
    }
  }
  /** `messages.map(…).join("\n\n")`: one line per message, in input order. */
  function Transcript(messages: seq<Message>): string {
    Join(seq(|messages|, i requires 0 <= i < |messages| => TranscriptLine(messages[i])), Separator)
  }

  /** Line `i` of the transcript is message `i`'s, followed by the separator
      unless it is the last. */
  lemma TranscriptLayout(messages: seq<Message>, i: nat)
    requires i < |messages|
    ensures var lines := seq(|messages|, k requires 0 <= k < |messages| => TranscriptLine(messages[k]));
      var t, start := Transcript(messages), PartStart(lines, Separator, i);
      && OccursAt(TranscriptLine(messages[i]), t, start)
      && (i + 1 < |messages| ==> OccursAt(Separator, t, start + |TranscriptLine(messages[i])|))
      && (i + 1 == |messages| ==> |t| == start + |TranscriptLine(messages[i])|)
  {
    var lines := seq(|messages|, k requires 0 <= k < |messages| => TranscriptLine(messages[k]));
    JoinLayout(lines, Separator, i);
  }

  // ----- the cascade call -----

  const TranscriptHeader: string := "CONVERSATION TRANSCRIPT:\n\n"
  const ClosingInstruction: string := "\n\nAnalyze this conversation. Return only valid JSON."

  function ContextLines(c: Context): string {
    "CONTEXT:\n"
    + "The manager described their situation as: \"" + c.situation + "\". "
    + "They are speaking with " + c.person + ". "
    + "They said they feel " + c.emotion + ".\n\n"
  }

  /** The user message: the context, then the transcript under its heading,
      then the closing instruction. */
  function UserContent(c: Context, transcript: string): (content: string)
    ensures OccursAt(transcript, content, |ContextLines(c)| + |TranscriptHeader|)
  {
    OccursSpliced(ContextLines(c) + TranscriptHeader, transcript, ClosingInstruction);
    ContextLines(c) + TranscriptHeader + transcript + ClosingInstruction
  }

  /** Exactly a system and a user message, the route's sampling parameters and
      no response format. */
  function MirrorChatOptions(prompt: string, conversation: Conversation): (options: ChatOptions)
    ensures |options.messages| == 2
    ensures options.messages[0] == ChatMessage(System, prompt)
    ensures options.messages[1].role == User
    ensures Contains(options.messages[1].content, Transcript(conversation.messages))
    ensures options.temperature == Some(Temperature) && options.maxTokens == Some(MaxTokens)
    ensures options.responseFormat.None?
  {
    var content := UserContent(conversation.context, Transcript(conversation.messages));
    ChatOptions([ChatMessage(System, prompt), ChatMessage(User, content)], Some(Temperature), Some(MaxTokens), None)
  }

  // ----- code-fence stripping -----

  const Fence: string := "```"
  const JsonTag: string := "json"

  /** The first fence starting at or after `from`. */
  function FenceFrom(s: string, from: nat): (k: Option<nat>)
    ensures k.Some? ==> from <= k.value && OccursAt(Fence, s, k.value)
    ensures forall j: nat :: from <= j && (k.None? || j < k.value) ==> !OccursAt(Fence, s, j)
    decreases |s| - from
  {
    if from + |Fence| > |s| then None
    else if OccursAt(Fence, s, from) then Some(from)
    else FenceFrom(s, from + 1)
  }

  /** The first position at or after `p` that is not white space (`\s*`). */
  function SkipSpace(s: string, p: nat): (q: nat)
    requires p <= |s|
    ensures p <= q <= |s|
    ensures forall k :: p <= k < q ==> IsWhiteSpace(s[k])
    ensures q == |s| || !IsWhiteSpace(s[q])
    decreases |s| - p
  {
    if p < |s| && IsWhiteSpace(s[p]) then SkipSpace(s, p + 1) else p
  }

  /** Where the captured group starts for an opening fence at `i`: after the
      fence, the optional `json` tag and any white space. */
  function CaptureStart(s: string, i: nat): (p: nat)
    requires i + |Fence| <= |s|
    ensures i + |Fence| <= p <= |s|
  {
    SkipSpace(s, if OccursAt(JsonTag, s, i + |Fence|) then i + |Fence| + |JsonTag| else i + |Fence|)
  }

  /** The group `/```(?:json)?\s*([\s\S]*?)```/` captures, if it matches. */
  function FenceCapture(s: string): Option<string> {
    match FenceFrom(s, 0)
    case None => None
    case Some(i) =>
      var p := CaptureStart(s, i);
      match FenceFrom(s, p)
      case None => None
      case Some(j) => Some(s[p..j])
  }

  /** The text handed to `JSON.parse`. */
  function StripFence(raw: string): string {
    match FenceCapture(raw)
    case Some(capture) => Trim(capture)
    case None => raw
  }

  /** Skipping positions where no fence starts does not change the next fence. */
  lemma FenceFromSkips(s: string, a: nat, b: nat)
    requires a <= b
    requires forall k: nat :: a <= k < b ==> !OccursAt(Fence, s, k)
    ensures FenceFrom(s, a) == FenceFrom(s, b)
  {
  }

  /** Only a backtick can start a fence. */
  lemma NoFenceWithoutBacktick(s: string, k: nat)
    requires k < |s| && s[k] != '`'
    ensures !OccursAt(Fence, s, k)
  {
    if k + |Fence| <= |s| {
      assert s[k..k + |Fence|][0] == s[k];
    }
  }

  /** No fence starts inside the tag or the white space after the opening fence. */
  lemma NoFenceBeforeCapture(s: string, i: nat)
    requires i + |Fence| <= |s|
    ensures forall k: nat :: i + |Fence| <= k < CaptureStart(s, i) ==> !OccursAt(Fence, s, k)
  {
    var tagged := OccursAt(JsonTag, s, i + |Fence|);
    var afterTag := if tagged then i + |Fence| + |JsonTag| else i + |Fence|;
    var p := SkipSpace(s, afterTag);
    assert CaptureStart(s, i) == p;
    forall k: nat | i + |Fence| <= k < p
      ensures !OccursAt(Fence, s, k)
    {
      if k < afterTag {
        assert s[k] == s[i + |Fence|..i + |Fence| + |JsonTag|][k - i - |Fence|];
      } else {
        assert IsWhiteSpace(s[k]);
      }
      NoFenceWithoutBacktick(s, k);
    }
  }

  /** The regular expression matches exactly when a second fence starts at or
      after the end of the first one; the closing fence may follow at once. */
  lemma FenceMatches(s: string)
    ensures FenceCapture(s).Some? <==>
      FenceFrom(s, 0).Some? && FenceFrom(s, FenceFrom(s, 0).value + |Fence|).Some?
  {
    if FenceFrom(s, 0).Some? {
      var i := FenceFrom(s, 0).value;
      NoFenceBeforeCapture(s, i);
      FenceFromSkips(s, i + |Fence|, CaptureStart(s, i));
    }
  }

  /** A span in which no fence starts holds no fence. */
  lemma SpanWithoutFence(s: string, p: nat, j: nat)
    requires p <= j <= |s|
    requires forall k: nat :: p <= k < j ==> !OccursAt(Fence, s, k)
    ensures forall k: nat :: !OccursAt(Fence, s[p..j], k)
  {
    forall k: nat | OccursAt(Fence, s[p..j], k)
      ensures false
    {
      OccursInSlice(Fence, s, p, j, k);
    }
  }

  /** The capture is the span between the capture start and the next fence. */
  lemma CaptureSpan(s: string)
    requires FenceCapture(s).Some?
    ensures var p := CaptureStart(s, FenceFrom(s, 0).value);
      && FenceFrom(s, p).Some?
      && FenceCapture(s).value == s[p..FenceFrom(s, p).value]
  {
  }

  /** The span up to the next fence holds none, and that fence follows it. */
  lemma SpanToNextFence(s: string, p: nat)
    requires p <= |s| && FenceFrom(s, p).Some?
    ensures var c := s[p..FenceFrom(s, p).value];
      && (forall k: nat :: !OccursAt(Fence, c, k))
      && OccursAt(c + Fence, s, p)
  {
    var j := FenceFrom(s, p).value;
    SpanWithoutFence(s, p, j);
    assert OccursAt(s[p..j], s, p);
    OccursAdjacent(s[p..j], Fence, s, p);
  }

  /** The capture is the shortest span: it holds no fence, no fence starts in
      `s` anywhere inside it, and the closing fence follows it directly. */
  lemma CaptureIsShortest(s: string)
    requires FenceCapture(s).Some?
    ensures var c, p := FenceCapture(s).value, CaptureStart(s, FenceFrom(s, 0).value);
      && (forall k: nat :: !OccursAt(Fence, c, k))
      && (forall k: nat :: p <= k < p + |c| ==> !OccursAt(Fence, s, k))
      && OccursAt(c + Fence, s, p)
  {
    CaptureSpan(s);
    SpanToNextFence(s, CaptureStart(s, FenceFrom(s, 0).value));
  }

  /** Without a fence the raw output is parsed as it is. */
  lemma NoFenceKeepsRaw(raw: string)
    requires forall k: nat :: !OccursAt(Fence, raw, k)
    ensures StripFence(raw) == raw
  {
  }

  /** A fenced block, tagged `json` or not. */
  function Fenced(tag: string, text: string): string {
    Fence + tag + "\n" + text + "\n" + Fence
  }

  /** The opening fence of a fenced block is found first, and the capture
      starts right after its line break. */
  lemma FencedOpening(tag: string, text: string)
    requires tag == JsonTag || tag == ""
    requires text != [] && IsTrimmed(text)
    ensures FenceFrom(Fenced(tag, text), 0) == Some(0)
    ensures CaptureStart(Fenced(tag, text), 0) == |Fence| + |tag| + 1
  {
    var s := Fenced(tag, text);
    assert s[..|Fence|] == Fence;
    if tag == "" {
      assert s[|Fence|] == '\n';
      assert !OccursAt(JsonTag, s, |Fence|);
    } else {
      assert s[|Fence|..|Fence| + |JsonTag|] == JsonTag;
    }
    assert s[|Fence| + |tag|] == '\n' && s[|Fence| + |tag| + 1] == text[0];
  }

  /** The first fence after the opening one of a fenced block is its closing
      fence, when the text holds none. */
  lemma FencedClosing(tag: string, text: string)
    requires forall k: nat :: !OccursAt(Fence, text, k)
    ensures var start := |Fence| + |tag| + 1;
      FenceFrom(Fenced(tag, text), start) == Some(start + |text| + 1)
  {
    var s := Fenced(tag, text);
    var start := |Fence| + |tag| + 1;
    var close := start + |text| + 1;
    forall k: nat | start <= k < close
      ensures !OccursAt(Fence, s, k)
    {
      if k + |Fence| <= start + |text| {
        assert s[k..k + |Fence|] == text[k - start..k - start + |Fence|];
        assert !OccursAt(Fence, text, k - start);
      } else {
        assert s[start + |text|] == '\n';
      }
    }
    assert s[close..close + |Fence|] == Fence;
    FenceFromSkips(s, start, close);
  }

  /** Stripping undoes fencing for a trimmed, non-empty text without fences. */
  lemma FenceRoundTrip(tag: string, text: string)
    requires tag == JsonTag || tag == ""
    requires text != [] && IsTrimmed(text)
    requires forall k: nat :: !OccursAt(Fence, text, k)
    ensures StripFence(Fenced(tag, text)) == text
  {
    var s := Fenced(tag, text);
    var start := |Fence| + |tag| + 1;
    FencedOpening(tag, text);
    FencedClosing(tag, text);
    assert FenceCapture(s) == Some(s[start..start + |text| + 1]);
    assert s[start..start + |text| + 1] == text + "\n";
    TrimDropsAppendedSpace(text, '\n');
  }

  // ----- parsing and answering -----

  /** A JSON value as far as the route looks at it. */
  datatype Json = JObject(members: map<string, Json>) | JString(text: string) | JOther

  /** `JSON.parse`: `None` when it throws a `SyntaxError`. */
  type JsonParser = string -> Option<Json>

  /** What `MirrorResponseSchema` accepts. */
  datatype MirrorData = MirrorData(momentToNotice: string, theOtherSide: string, aWayToBegin: string)

  function StringMember(doc: Json, key: string): Option<string> {
    if doc.JObject? && key in doc.members && doc.members[key].JString? then Some(doc.members[key].text) else None
  }

  /** `MirrorResponseSchema.parse`: an object with the three string fields;
      other fields are dropped. */
  function CheckShape(doc: Json): (d: Option<MirrorData>)
    ensures d.Some? <==>
      StringMember(doc, "moment_to_notice").Some? && StringMember(doc, "the_other_side").Some?
      && StringMember(doc, "a_way_to_begin").Some?
  {
    var moment := StringMember(doc, "moment_to_notice");
    var otherSide := StringMember(doc, "the_other_side");
    var wayToBegin := StringMember(doc, "a_way_to_begin");
    if moment.Some? && otherSide.Some? && wayToBegin.Some? then
      Some(MirrorData(moment.value, otherSide.value, wayToBegin.value))
    else None
  }

  /** What the route makes of the model's text. */
  function ReadOutput(raw: string, parse: JsonParser): Result<MirrorData, Fault> {
    match parse(StripFence(raw))
    case None => Failure(OutputNotJson)
    case Some(doc) =>
      match CheckShape(doc)
      case None => Failure(OutputShape)
      case Some(d) => Success(d)
  }

  /** The handler's outcome for a request body, given the cascade and the parser. */
  function MirrorOutcome(prompt: string, request: RequestJson, parse: JsonParser, complete: Completion): Result<MirrorData, Fault> {
    if !AcceptsBody(request) then Failure(InvalidBody)
    else
      var result := complete(MirrorChatOptions(prompt, request.conversation));
      if result.Exhausted? then Failure(CascadeExhausted)
      else ReadOutput(result.text, parse)
  }

  /** The frontend's keys for the three fields. */
  function Reflection(d: MirrorData): Payload {
    ReflectionPayload(d.momentToNotice, d.theOtherSide, d.aWayToBegin)
  }

  /** The response with the corrected status mapping. */
  function MirrorResponse(outcome: Result<MirrorData, Fault>): Response {
    match outcome
    case Success(d) => Response(200, Reflection(d))
    case Failure(f) => ErrorResponse(f)
  }

  /** The response as the route's `catch` block writes it. */
  function MirrorResponseAsWritten(outcome: Result<MirrorData, Fault>): Response {
    match outcome
    case Success(d) => Response(200, Reflection(d))
    case Failure(f) => ErrorResponseAsWritten(f)
  }

  /** The route answers 200 exactly when the body is accepted, the cascade
      completes and the stripped output parses to an object with the three
      string fields; the answer renames them and carries nothing else. */
  lemma MirrorSuccess(prompt: string, request: RequestJson, parse: JsonParser, complete: Completion)
    ensures var r := MirrorResponse(MirrorOutcome(prompt, request, parse, complete));
      && WellFormedResponse(r)
      && (r.status == 200 <==>
            && AcceptsBody(request)
            && complete(MirrorChatOptions(prompt, request.conversation)).Completed?
            && parse(StripFence(complete(MirrorChatOptions(prompt, request.conversation)).text)).Some?
            && CheckShape(parse(StripFence(complete(MirrorChatOptions(prompt, request.conversation)).text)).value).Some?)
      && (r.status == 200 ==>
            var doc := parse(StripFence(complete(MirrorChatOptions(prompt, request.conversation)).text)).value;
            r.payload == ReflectionPayload(
              StringMember(doc, "moment_to_notice").value,
              StringMember(doc, "the_other_side").value,
              StringMember(doc, "a_way_to_begin").value))
  {
    var outcome := MirrorOutcome(prompt, request, parse, complete);
    if outcome.Failure? {
      ErrorResponsesWellFormed(outcome.error);
    }
  }

  /** Everything but a rejected body is a server error with the generic message:
      an exhausted cascade, output that is not JSON and output of the wrong
      shape alike. No partial object and no fallback reflection is sent. */
  lemma MirrorFailures(prompt: string, request: RequestJson, parse: JsonParser, complete: Completion)
    ensures var outcome := MirrorOutcome(prompt, request, parse, complete);
      && (!AcceptsBody(request) ==> MirrorResponse(outcome) == BadRequest)
      && (AcceptsBody(request) && outcome.Failure? ==> MirrorResponse(outcome) == ServerError)
  {
  }

  /** The route as written answers a valid request with 400 "Invalid request
      body" when the model's output parses to JSON of the wrong shape, such as
      the array `[]`. */
  lemma ShapeFailureBlamesRequest(prompt: string, conversation: Conversation, parse: JsonParser, complete: Completion)
    requires |conversation.messages| >= MinMessages
    requires complete(MirrorChatOptions(prompt, conversation)) == Completed("[]")
    requires parse("[]") == Some(JOther)
    ensures MirrorResponseAsWritten(MirrorOutcome(prompt, WellTyped(conversation), parse, complete)) == BadRequest
    ensures MirrorResponse(MirrorOutcome(prompt, WellTyped(conversation), parse, complete)) == ServerError
  {
    assert FenceFrom("[]", 0) == None;
  }

  /** The corrected and the as-written responses differ only on an output of
      the wrong shape. */
  lemma MirrorResponsesAgree(outcome: Result<MirrorData, Fault>)
    ensures !(outcome.Failure? && outcome.error.OutputShape?) ==> MirrorResponse(outcome) == MirrorResponseAsWritten(outcome)
    ensures outcome.Failure? && outcome.error.OutputShape? ==> MirrorResponse(outcome).status == 500 && MirrorResponseAsWritten(outcome).status == 400
  {
  }

  /** The POST handler, with the corrected `catch` mapping; it answers as the
      code is written on every outcome but a wrongly shaped model output. A
      rejected body is answered before the cascade is called; otherwise the
      cascade's requests and sleeps are all it adds to the upstream's log. */
  method HandleMirror(up: Upstream, prompt: string, request: RequestJson, parse: JsonParser) returns (response: Response)
    modifies up
    ensures response == MirrorResponse(MirrorOutcome(prompt, request, parse, CascadeCompletion(up.answer, old(up.served))))
    ensures !AcceptsBody(request) ==> up.served == old(up.served) && up.log == old(up.log)
    ensures AcceptsBody(request) ==>
      var run := RunCascade(ModelTurns(up.answer, MirrorChatOptions(prompt, request.conversation)), old(up.served), FreeModels);
      up.served == old(up.served) + run.used && up.log == old(up.log) + run.events
    ensures var outcome := MirrorOutcome(prompt, request, parse, CascadeCompletion(up.answer, old(up.served)));
      !(outcome.Failure? && outcome.error.OutputShape?) ==> response == MirrorResponseAsWritten(outcome)
  {
    MirrorResponsesAgree(MirrorOutcome(prompt, request, parse, CascadeCompletion(up.answer, up.served)));
    if !AcceptsBody(request) {
      response := ErrorResponse(InvalidBody);
      return;
    }
    var conversation := request.conversation;
    var transcript := Transcript(conversation.messages);
    var userContent := UserContent(conversation.context, transcript);
    var options := ChatOptions(
      [ChatMessage(System, prompt), ChatMessage(User, userContent)], Some(Temperature), Some(MaxTokens), None);
    var raw := ChatCompletion(up, options);
    if raw.Exhausted? {
      response := ErrorResponse(CascadeExhausted);
      return;
    }
    var jsonStr := raw.text;
    var fenceMatch := FenceCapture(raw.text);
    if fenceMatch.Some? {
      jsonStr := Trim(fenceMatch.value);
    }
    var parsed := parse(jsonStr);
    if parsed.None? {
      response := ErrorResponse(OutputNotJson);
      return;
    }
    var mirrorData := CheckShape(parsed.value);
    if mirrorData.None? {
      response := ErrorResponse(OutputShape);
      return;
    }
    response := Response(200, Reflection(mirrorData.value));
  }
}
