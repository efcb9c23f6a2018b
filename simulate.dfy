/**
 * The simulate route (server/src/routes/simulate.ts): the system content built
 * from the conversation context, the chat list built turn by turn with the
 * guardrail applied to the user's turns, the cascade call with the route's own
 * sampling parameters, and the reply or the error status.
 */
module Simulate {
  import opened Wrappers
  import opened Text
  import opened OpenRouter
  import opened Safety
  import opened Routes
  import CascadeProperties

  const Temperature: real := 0.85
  const MaxTokens: int := 200

  const ContextHeader: string :=
    "\n\nContext about this specific conversation:\n"
    + "The user is a team lead speaking to an employee.\n"

  const Instructions: string :=
    "Respond as the employee.\n"
    + "Stay emotionally grounded and realistic.\n"
    + "Do not solve the issue.\n"
    + "Keep tension subtle but present."

  function SituationLine(c: Context): string {
    "Situation: " + c.situation + "\n"
  }

  function PersonLine(c: Context): string {
    "The person they are speaking with: " + c.person + "\n"
  }

  function FeelingLine(c: Context): string {
    "The manager is currently feeling: " + c.emotion + "\n\n"
  }

  /** The system message: the route's prompt followed by the conversation's
      context and the fixed instructions. */
  function SystemContent(prompt: string, c: Context): (s: string)
    ensures OccursAt(prompt, s, 0)
  {
    prompt + ContextHeader + SituationLine(c) + PersonLine(c) + FeelingLine(c) + Instructions
  }

  /** Where the middle three of six concatenated pieces start. */
  lemma MiddlePieces(a: string, b: string, c: string, d: string, e: string, f: string)
    ensures OccursAt(c, a + b + c + d + e + f, |a| + |b|)
    ensures OccursAt(d, a + b + c + d + e + f, |a| + |b| + |c|)
    ensures OccursAt(e, a + b + c + d + e + f, |a| + |b| + |c| + |d|)
  {
    var all := a + b + c + d + e + f;
    assert all == (a + b) + c + (d + e + f);
    OccursSpliced(a + b, c, d + e + f);
    assert all == (a + b + c) + d + (e + f);
    OccursSpliced(a + b + c, d, e + f);
    assert all == (a + b + c + d) + e + f;
    OccursSpliced(a + b + c + d, e, f);
  }

  /** Each context field appears in the system content on its own labelled line. */
  lemma SystemContentMentions(prompt: string, c: Context)
    ensures Contains(SystemContent(prompt, c), SituationLine(c))
    ensures Contains(SystemContent(prompt, c), PersonLine(c))
    ensures Contains(SystemContent(prompt, c), FeelingLine(c))
  {
    MiddlePieces(prompt, ContextHeader, SituationLine(c), PersonLine(c), FeelingLine(c), Instructions);
  }

  /** One input turn as a chat message: the user's turns go through the
      guardrail, the employee's (`ai`) turns are sent as the assistant's. */
  function ToChatMessage(m: Message): (c: ChatMessage)
    ensures c.role != System
  {
    if m.role == UserTurn then ChatMessage(User, ApplySafetyGuardrail(m.text).message)
    else ChatMessage(Assistant, m.text)
  }

  /** The user's turns arrive trimmed, at least ten units long and still holding
      what the user typed; the employee's turns arrive unchanged. */
  lemma TurnMapping(m: Message)
    ensures var c := ToChatMessage(m);
      && (m.role == UserTurn ==>
            c.role == User && IsTrimmed(c.content) && JsLength(c.content) >= MinInputLength
            && Contains(c.content, Trim(m.text)))
      && (m.role == AiTurn ==> c == ChatMessage(Assistant, m.text))
  {
    GuardrailKeepsText(m.text);
  }

  /** The turns converted one by one, in order. */
  function ConvertedTurns(messages: seq<Message>): (out: seq<ChatMessage>)
    ensures |out| == |messages|
    ensures forall i :: 0 <= i < |messages| ==> out[i] == ToChatMessage(messages[i])
  {
    if messages == [] then []
    else ConvertedTurns(messages[..|messages| - 1]) + [ToChatMessage(messages[|messages| - 1])]
  }

  /** The chat list the route sends: the system message first, then every turn
      in input order. */
  function ChatMessagesFor(systemContent: string, messages: seq<Message>): (chat: seq<ChatMessage>)
    ensures |chat| == |messages| + 1
    ensures chat[0] == ChatMessage(System, systemContent)
    ensures forall i :: 0 <= i < |messages| ==> chat[i + 1] == ToChatMessage(messages[i])
  {
    [ChatMessage(System, systemContent)] + ConvertedTurns(messages)
  }

  /** The system role appears only at the head of the list. */
  lemma OnlyFirstIsSystem(systemContent: string, messages: seq<Message>)
    ensures var chat := ChatMessagesFor(systemContent, messages);
      forall i :: 0 <= i < |chat| ==> (chat[i].role == System <==> i == 0)
  {
    var chat := ChatMessagesFor(systemContent, messages);
    forall i | 1 <= i < |chat|
      ensures chat[i].role != System
    {
      assert chat[(i - 1) + 1] == ToChatMessage(messages[i - 1]);
    }
  }

  /** The `for … of` loop that pushes one chat message per turn. */
  method BuildChatMessages(systemContent: string, messages: seq<Message>) returns (chat: seq<ChatMessage>)
    ensures chat == ChatMessagesFor(systemContent, messages)
  {
    chat := [ChatMessage(System, systemContent)];
    for i := 0 to |messages|
      invariant chat == [ChatMessage(System, systemContent)] + ConvertedTurns(messages[..i])
    {
      var msg := messages[i];
      if msg.role == UserTurn {
        var guarded := ApplySafetyGuardrail(msg.text);
        chat := chat + [ChatMessage(User, guarded.message)];
      } else {
        chat := chat + [ChatMessage(Assistant, msg.text)];
      }
      assert messages[..i + 1][..i] == messages[..i];
    }
    assert messages[..|messages|] == messages;
  }

  /** The options the route hands to the cascade. */
  function SimulateChatOptions(prompt: string, conversation: Conversation): ChatOptions {
    var system := SystemContent(prompt, conversation.context);
    ChatOptions(ChatMessagesFor(system, conversation.messages), Some(Temperature), Some(MaxTokens), None)
  }

  /** The response for a request body, given what the cascade makes of the
      route's options. */
  function SimulateResponse(prompt: string, request: RequestJson, complete: Completion): Response {
    if request.Malformed? then ErrorResponse(InvalidBody)
    else
      var result := complete(SimulateChatOptions(prompt, request.conversation));
      if result.Completed? then Response(200, ReplyPayload(result.text))
      else ErrorResponse(CascadeExhausted)
  }

  /** A rejected body is a 400; otherwise the cascade's text is the reply,
      verbatim, and its exhaustion a 500 with no fallback reply. */
  lemma SimulateOutcomes(prompt: string, request: RequestJson, complete: Completion)
    ensures var r := SimulateResponse(prompt, request, complete);
      && WellFormedResponse(r)
      && (r.status == 400 <==> request.Malformed?)
      && (request.WellTyped? ==>
            var result := complete(SimulateChatOptions(prompt, request.conversation));
            && (result.Completed? ==> r == Response(200, ReplyPayload(result.text)))
            && (result.Exhausted? ==> r == ServerError))
  {
    ErrorResponsesWellFormed(InvalidBody);
    ErrorResponsesWellFormed(CascadeExhausted);
  }

  /** Every upstream request the route causes carries the chat list, a
      temperature of 0.85, at most 200 tokens and no response format, and goes
      to one of the free models. */
  lemma SimulateRequests(answer: nat -> Answer, next: nat, prompt: string, conversation: Conversation)
    ensures var options := SimulateChatOptions(prompt, conversation);
      var reqs := Requests(RunCascade(ModelTurns(answer, options), next, FreeModels).events);
      forall i :: 0 <= i < |reqs| ==>
        && reqs[i].model in FreeModels
        && reqs[i].messages == options.messages
        && reqs[i].temperature == Temperature && reqs[i].maxTokens == MaxTokens
        && reqs[i].responseFormat.None?
  {
    var options := SimulateChatOptions(prompt, conversation);
    CascadeProperties.ModelTurnsShaped(answer, options);
    CascadeProperties.CascadeBodies(ModelTurns(answer, options), options, next, FreeModels);
  }

  /** A reply the route sends is never empty and never padded with white space. */
  lemma SimulateReplyTrimmed(answer: nat -> Answer, next: nat, prompt: string, request: RequestJson)
    ensures var r := SimulateResponse(prompt, request, CascadeCompletion(answer, next));
      r.status == 200 ==> r.payload.reply != [] && IsTrimmed(r.payload.reply)
  {
    if request.WellTyped? {
      var options := SimulateChatOptions(prompt, request.conversation);
      CascadeProperties.CascadeFirstSuccess(answer, options, next, FreeModels);
    }
  }

  /** The POST handler. A rejected body is answered before the cascade is
      called; otherwise the cascade's requests and sleeps are all it adds to the
      upstream's log. */
  method HandleSimulate(up: Upstream, prompt: string, request: RequestJson) returns (response: Response)
    modifies up
    ensures response == SimulateResponse(prompt, request, CascadeCompletion(up.answer, old(up.served)))
    ensures request.Malformed? ==> up.served == old(up.served) && up.log == old(up.log)
    ensures request.WellTyped? ==>
      var run := RunCascade(ModelTurns(up.answer, SimulateChatOptions(prompt, request.conversation)), old(up.served), FreeModels);
      up.served == old(up.served) + run.used && up.log == old(up.log) + run.events
  {
    if request.Malformed? {
      response := ErrorResponse(InvalidBody);
      return;
    }
    var conversation := request.conversation;
    var systemContent := SystemContent(prompt, conversation.context);
    var chat := BuildChatMessages(systemContent, conversation.messages);
    var reply := ChatCompletion(up, ChatOptions(chat, Some(Temperature), Some(MaxTokens), None));
    if reply.Exhausted? {
      response := ErrorResponse(CascadeExhausted);
    } else {
      response := Response(200, ReplyPayload(reply.text));
    }
  }
}
