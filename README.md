# Kintsugi backend core in Dafny

Kintsugi is a practice tool for team leads. A lead rehearses a difficult conversation with an AI employee, then asks for a reflection on how it went. This project models the server side of that loop.

- **The chat-completion client** (`server/src/lib/openrouter.ts`).
  - It tries a fixed list of five free models in order.
  - Each model gets at most two attempts, with a 2000 ms pause before the second.
  - Rate limits, 5xx statuses, thrown fetches and blank replies are retried.
  - Any other non-2xx status moves on to the next model.
  - The first non-blank reply, trimmed, is returned. "All models exhausted" is thrown when none gives one.
  - The network is modelled as an `Upstream` object whose n-th request receives `answer(n)`. The object logs every request body and every sleep in order.
  - `TryModel` and `Cascade` are loops proved against the pure functions `RunModel` and `RunCascade`, and `ChatCompletion` is one call of `Cascade` on the free models. Module `CascadeProperties` proves what the client promises about those functions.
- **The input guardrail** (`server/src/lib/safety.ts`). It trims a user turn. A turn shorter than ten UTF-16 code units is wrapped in a fixed safety note.
- **The simulate route** (`server/src/routes/simulate.ts`). It builds the system message from the conversation context. A loop builds the chat list turn by turn, passing the user's turns through the guardrail. It then calls the cascade with temperature 0.85 and at most 200 tokens, and answers with the reply, a 400 or a 500.
- **The mirror route** (`server/src/routes/mirror.ts`).
  - It requires at least two messages.
  - It renders the transcript as `Manager:`/`Employee:` lines joined by blank lines.
  - It calls the cascade with temperature 0.7 and at most 500 tokens.
  - It strips a Markdown code fence from the reply, parses the JSON and checks its three string fields.
  - It answers with those fields under the frontend's keys.

Both routes share module `Routes`. It holds the request body as the zod schemas see it, the failures a handler can meet, and the `catch` block that maps a failure to a status. A handler is a module-level method that takes the `Upstream` and changes it. Its response equals a pure function of the request and of `CascadeCompletion(answer, served)`, which is what the cascade returns for given options.

Files:
- `wrappers.dfy`: `Option` and `Result`.
- `text.dfy`: JavaScript `trim`, UTF-16 `length` and substring occurrence.
- `openrouter.dfy`: the client.
- `openrouter_props.dfy`: its properties.
- `safety.dfy`: the guardrail.
- `routes.dfy`: what the two routes share.
- `simulate.dfy`: the simulate route.
- `mirror.dfy`: the mirror route.

## Model

| member | source | states |
|---|---|---|
| `OpenRouter.BackoffDelay` | server/src/lib/openrouter.ts:49-52 | the pause before a retry is at least the 2000 ms base interval |
| `CascadeProperties.BackoffFormula` | server/src/lib/openrouter.ts:50 | the pause before attempt k is `BASE_DELAY_MS * 2^(k-1)` |
| `OpenRouter.BuildRequestBody` | server/src/lib/openrouter.ts:63-69 | the body carries the model and the caller's messages unchanged; temperature defaults to 0.8 and max tokens to 300 only when omitted; a response format is sent exactly when one was given |
| `OpenRouter.Classify` | server/src/lib/openrouter.ts:72-98 | an answer is accepted only when it is a 2xx reply with string content, and the text is then that content trimmed and non-empty |
| `CascadeProperties.StatusDispositions` | server/src/lib/openrouter.ts:73-83 | 429 and every status of 500 or more are retried; any other non-2xx status with a readable body gives up on the model; a thrown fetch is retried |
| `CascadeProperties.OkReplyAccepted` | server/src/lib/openrouter.ts:85-93 | a 2xx reply is accepted if and only if its trimmed content is non-empty, with that trimmed text; missing content or an unreadable body is retried |
| `OpenRouter.Upstream.constructor` | server/src/lib/openrouter.ts:56-70 | a fresh upstream has served nothing and logged nothing |
| `OpenRouter.Upstream.Post` | server/src/lib/openrouter.ts:56-70 | a request receives the next scripted answer, which is consumed, and its body is appended to the log |
| `OpenRouter.Upstream.Sleep` | server/src/lib/openrouter.ts:40-42 | a sleep is logged with its duration and consumes no answer |
| `OpenRouter.Attempt` | server/src/lib/openrouter.ts:49-98 | one pass of the retry loop logs the backoff sleep (only after the first attempt) and one request, consumes one answer and classifies it |
| `OpenRouter.RunModel` | server/src/lib/openrouter.ts:44-102 | one model's turn as a value: the answer it returns, the requests and sleeps it logs and the answers it consumes; `CascadeProperties.ModelTurnShape`, `ModelTurnEvents` and `ModelTurnOutcome` state its contract, and `OpenRouter.TryModel` is proved to compute it |
| `OpenRouter.RunCascade` | server/src/lib/openrouter.ts:104-119 | the cascade as a value; `CascadeProperties.CascadeStopsAtFirstSuccess`, `CascadeCalls`, `CascadeOrder`, `CascadePerModel` and `CascadeSleeps` state its contract, and `OpenRouter.Cascade` is proved to compute it |
| `OpenRouter.TryModel` | server/src/lib/openrouter.ts:44-102 | the loop returns, consumes and logs exactly what `RunModel` says |
| `OpenRouter.Cascade` | server/src/lib/openrouter.ts:105-118 | the loop over the models returns, consumes and logs exactly what `RunCascade` says |
| `OpenRouter.ChatCompletion` | server/src/lib/openrouter.ts:104-119 | the client over the five free models returns, consumes and logs exactly what `RunCascade` over `FreeModels` says |
| `CascadeProperties.AttemptsRequests` | server/src/lib/openrouter.ts:48-70 | n attempts on a model log n requests, each with that model's body |
| `CascadeProperties.ModelTurnShape` | server/src/lib/openrouter.ts:48-101 | a model's turn makes at least one and at most `RETRIES_PER_MODEL` requests, and logs exactly those attempts with their sleeps |
| `CascadeProperties.ModelTurnEvents` | server/src/lib/openrouter.ts:48-101 | a model's turn logs either one request, or a request, a 2000 ms sleep and the same request again |
| `CascadeProperties.ModelTurnOutcome` | server/src/lib/openrouter.ts:48-101 | every answer but the last of a turn was retryable; a returned text is the last answer's accepted text; a turn returns null only after an abandoning answer or after using every attempt on retryable answers |
| `CascadeProperties.AbandonCostsOneCall` | server/src/lib/openrouter.ts:79-83 | a non-retryable error ends the model's turn after a single request and yields null |
| `CascadeProperties.ModelTurnsShaped` | server/src/lib/openrouter.ts:44-102 | every turn the client takes has the shape of attempts on its own model |
| `CascadeProperties.ModelTurnsOutcome` | server/src/lib/openrouter.ts:44-102 | every turn the client takes has the outcome of `ModelTurnOutcome` with respect to the classified answers |
| `CascadeProperties.TurnLog` | server/src/lib/openrouter.ts:48-101 | a turn logs as many requests as answers it consumes, all with its model's body, and sleeps only between two of them |
| `CascadeProperties.CascadeCalls` | server/src/lib/openrouter.ts:104-119 | the log holds one request per consumed answer, and an exhausted cascade made at least as many requests as it lists models |
| `CascadeProperties.ExhaustedCallsEach` | server/src/lib/openrouter.ts:104-119 | an exhausted cascade sent at least one request to every model it lists |
| `CascadeProperties.CascadeCallBound` | server/src/lib/openrouter.ts:104-119 | a cascade over k models makes at most k × 2 requests |
| `CascadeProperties.AtMostTenCalls` | server/src/lib/openrouter.ts:17-26 | `chatCompletion` makes at most ten upstream requests |
| `CascadeProperties.CascadeStopsAtFirstSuccess` | server/src/lib/openrouter.ts:105-113 | no consumed answer but the last is acceptable; the cascade completes exactly when the last one is, with its text |
| `CascadeProperties.CascadeFirstSuccess` | server/src/lib/openrouter.ts:105-113 | the client stops at the first acceptable answer, and a returned text is non-empty and trimmed |
| `CascadeProperties.CompletedText` | server/src/lib/openrouter.ts:86-93 | a text the cascade completes with is non-empty and trimmed |
| `CascadeProperties.AllRetryableExhausts` | server/src/lib/openrouter.ts:104-119 | when every answer is retryable, the cascade is exhausted after exactly two requests per listed model in total |
| `CascadeProperties.AllRetryableCallsEachFully` | server/src/lib/openrouter.ts:44-53 | when every answer is retryable and no model is listed twice, every model receives exactly `RETRIES_PER_MODEL` requests |
| `CascadeProperties.EmptyRepliesExhaust` | server/src/lib/openrouter.ts:88-91 | when every reply is a 200 with empty content, `chatCompletion` throws after exactly ten requests, two to each free model |
| `CascadeProperties.CascadeBodies` | server/src/lib/openrouter.ts:63-69 | every request goes to one of the listed models, with the body built from the caller's options for that model |
| `CascadeProperties.CascadeOrder` | server/src/lib/openrouter.ts:105 | models are called in list order: a request never goes to a model earlier in the list than one already called |
| `CascadeProperties.CascadeRanked` | server/src/lib/openrouter.ts:105 | for any ranking under which the model list is sorted, the requests of a cascade come in non-decreasing rank |
| `CascadeProperties.ChatCompletionOrder` | server/src/lib/openrouter.ts:105-113 | `chatCompletion` calls the free models in list order and sends no model more than two requests |
| `CascadeProperties.DistinctWhenPairwise` | server/src/lib/openrouter.ts:17-23 | a list whose entries differ pairwise has no repeated model |
| `CascadeProperties.CascadePerModel` | server/src/lib/openrouter.ts:25 | no model receives more than `RETRIES_PER_MODEL` requests |
| `CascadeProperties.CascadeSleeps` | server/src/lib/openrouter.ts:49-53 | the client sleeps only between two requests with the same body, always for 2000 ms: never before a model's first attempt and never between models |
| `CascadeProperties.FreeModelsDistinct` | server/src/lib/openrouter.ts:17-23 | the five free models are pairwise distinct |
| `CascadeProperties.IndexOfFound` | server/src/lib/openrouter.ts:17-23 | a listed model is found at its position in the list |
| `CascadeProperties.FourCallScenario` | server/src/lib/openrouter.ts:44-119 | two 500s, then a 401, then a 200 "Fine." cost four requests and one 2000 ms sleep, and the third model's text is returned |
| `Text.Trim` | server/src/lib/safety.ts:12 | `trim` leaves no white space at either end and never lengthens |
| `Text.TrimIsSlice` | server/src/lib/safety.ts:12 | `trim` returns a slice of its input, and everything cut off is white space |
| `Text.TrimIdempotent` | server/src/lib/safety.ts:12 | trimming twice is trimming once |
| `Text.JsLength` | server/src/lib/safety.ts:13 | the UTF-16 length lies between the number of characters and twice that |
| `Safety.NoteHead` | server/src/lib/safety.ts:15 | the text before the quoted input starts with `[` and is at least ten units long |
| `Safety.SafetyNote` | server/src/lib/safety.ts:15 | the note is the head, the trimmed input and a closing quote, in that order |
| `Safety.ApplySafetyGuardrail` | server/src/lib/safety.ts:8-20 | the note is applied if and only if the trimmed input is shorter than ten UTF-16 units; the message is always trimmed and at least ten units long |
| `Safety.GuardrailMessage` | server/src/lib/safety.ts:12-19 | the message is the trimmed input when it is long enough, and the note around the trimmed input otherwise |
| `Safety.GuardrailKeepsText` | server/src/lib/safety.ts:12-19 | the trimmed input always occurs in the message |
| `Safety.GuardrailIgnoresSpace` | server/src/lib/safety.ts:12 | surrounding white space makes no difference to the result |
| `Safety.GuardrailIdempotent` | server/src/lib/safety.ts:12-19 | a returned message passes the guardrail again unchanged and without the note |
| `Safety.BlankInputGetsNote` | server/src/lib/safety.ts:13-17 | an empty or all-blank input gets the note around an empty quote |
| `Routes.ErrorResponseAsWritten` | server/src/routes/mirror.ts:94-101 | as written, every zod error gives 400 "Invalid request body" and anything else 500 "Internal server error" |
| `Routes.ErrorResponse` | server/src/routes/simulate.ts:68-75 | 400 exactly for a rejected request body; every other failure gives 500 "Internal server error" |
| `Routes.ErrorMappingsAgree` | server/src/routes/mirror.ts:94-101 | the two mappings differ exactly on a zod error raised by the model's output |
| `Routes.ErrorResponsesWellFormed` | server/src/routes/simulate.ts:69-74 | an error response is never a 200, carries an error payload, and has status 400 or 500 |
| `Simulate.SystemContent` | server/src/routes/simulate.ts:30-40 | the system message begins with the route's prompt |
| `Simulate.SystemContentMentions` | server/src/routes/simulate.ts:34-36 | the situation, the person and the feeling each appear on their own labelled line |
| `Simulate.ToChatMessage` | server/src/routes/simulate.ts:47-52 | no input turn becomes a system message |
| `Simulate.TurnMapping` | server/src/routes/simulate.ts:47-52 | a user turn becomes a user message that is trimmed, at least ten units long and holds what was typed; an `ai` turn becomes an assistant message with its text unchanged |
| `Simulate.ConvertedTurns` | server/src/routes/simulate.ts:46-53 | one message per turn, in input order |
| `Simulate.ChatMessagesFor` | server/src/routes/simulate.ts:42-53 | the system message first, then turn i at position i + 1 |
| `Simulate.OnlyFirstIsSystem` | server/src/routes/simulate.ts:42-53 | the system role appears at the head of the list and nowhere else |
| `Simulate.BuildChatMessages` | server/src/routes/simulate.ts:42-53 | the push loop builds exactly `ChatMessagesFor` |
| `Simulate.SimulateChatOptions` | server/src/routes/simulate.ts:57-61 | the options the route passes to `chatCompletion`; `Simulate.SimulateRequests` states what every upstream request then carries |
| `Simulate.SimulateResponse` | server/src/routes/simulate.ts:25-76 | the route's response as a function of the body and the cascade; `Simulate.SimulateOutcomes` states its contract |
| `Simulate.SimulateOutcomes` | server/src/routes/simulate.ts:25-76 | the status is 400 if and only if the body is rejected; a completed cascade gives 200 with its text verbatim; exhaustion gives a 500 with no fallback reply |
| `Simulate.SimulateRequests` | server/src/routes/simulate.ts:57-61 | every upstream request carries the chat list, temperature 0.85, 200 tokens and no response format, and goes to a free model |
| `Simulate.SimulateReplyTrimmed` | server/src/routes/simulate.ts:67 | a reply sent with 200 is non-empty and trimmed |
| `Simulate.HandleSimulate` | server/src/routes/simulate.ts:25-76 | the response is `SimulateResponse`; a rejected body is answered without any upstream request; otherwise the upstream log grows by exactly the cascade's events |
| `Mirror.TranscriptLine` | server/src/routes/mirror.ts:45 | a user turn is labelled `Manager: ` and an `ai` turn `Employee: ` |
| `Mirror.JoinLayout` | server/src/routes/mirror.ts:44-46 | part i of a join starts where the previous part and the separator end, the separator follows every part but the last, and the join ends with the last part |
| `Mirror.Join` | server/src/routes/mirror.ts:46 | `Array.prototype.join`; `Mirror.JoinLayout` states where every part and separator lies and the total length |
| `Mirror.Transcript` | server/src/routes/mirror.ts:44-46 | the labelled turns joined by a blank line; `Mirror.TranscriptLayout` states its layout line by line |
| `Mirror.TranscriptLayout` | server/src/routes/mirror.ts:44-46 | line i of the transcript is the labelled turn i, followed by a blank line unless it is the last |
| `Mirror.UserContent` | server/src/routes/mirror.ts:48-54 | the transcript appears in the user message right after the context and its heading |
| `Mirror.MirrorChatOptions` | server/src/routes/mirror.ts:58-65 | exactly a system message with the prompt and a user message containing the transcript, temperature 0.7, 500 tokens and no response format |
| `Mirror.FenceFrom` | server/src/routes/mirror.ts:73 | the first fence at or after a position, and no fence before it |
| `Mirror.CaptureStart` | server/src/routes/mirror.ts:73 | where `(?:json)?\s*` ends after the opening fence; `Mirror.SkipSpace` states what the white-space run covers, and `Mirror.CaptureIsShortest` that the capture begins there |
| `Mirror.SkipSpace` | server/src/routes/mirror.ts:73 | `\s*` consumes white space up to the first other character |
| `Mirror.FenceMatches` | server/src/routes/mirror.ts:73-74 | the pattern matches if and only if the first fence is followed by another fence |
| `Mirror.CaptureIsShortest` | server/src/routes/mirror.ts:73 | the captured group holds no fence, no fence starts in the reply anywhere inside it, and the closing fence follows it immediately; it starts right after the opening fence, tag and white space |
| `Mirror.NoFenceKeepsRaw` | server/src/routes/mirror.ts:72-76 | text without a fence is parsed as it came |
| `Mirror.FenceRoundTrip` | server/src/routes/mirror.ts:72-76 | wrapping a trimmed text in a fence, with or without the `json` tag, and stripping it gives the text back |
| `Mirror.FenceCapture` | server/src/routes/mirror.ts:73-74 | the regex's capture group; `Mirror.FenceMatches` states when it matches and `Mirror.CaptureIsShortest` what it captures |
| `Mirror.StripFence` | server/src/routes/mirror.ts:72-76 | the text handed to `JSON.parse`; `Mirror.NoFenceKeepsRaw` and `Mirror.FenceRoundTrip` state its contract |
| `Mirror.CheckShape` | server/src/routes/mirror.ts:23-27 | the output passes the schema if and only if all three fields are present as strings |
| `Mirror.ReadOutput` | server/src/routes/mirror.ts:72-86 | fence stripping, `JSON.parse` and the output schema in turn; `Mirror.MirrorSuccess` and `Mirror.MirrorFailures` state when it succeeds and with what |
| `Mirror.Reflection` | server/src/routes/mirror.ts:89-93 | the three fields under the frontend's keys; `Mirror.MirrorSuccess` states that a 200 answer carries exactly them |
| `Mirror.MirrorResponse` | server/src/routes/mirror.ts:89-100 | the response under the corrected `catch` mapping of "## Findings"; `Mirror.MirrorSuccess`, `Mirror.MirrorFailures` and `Mirror.MirrorResponsesAgree` state its contract |
| `Mirror.MirrorResponseAsWritten` | server/src/routes/mirror.ts:89-101 | the response under the `catch` block as written; `Mirror.MirrorResponsesAgree` and `Mirror.ShapeFailureBlamesRequest` state where it departs from the corrected one |
| `Mirror.MirrorOutcome` | server/src/routes/mirror.ts:39-93 | the handler's outcome before the `catch` block; `Mirror.MirrorSuccess` and `Mirror.MirrorFailures` state its contract |
| `Mirror.MirrorSuccess` | server/src/routes/mirror.ts:39-93 | 200 if and only if the body is accepted, the cascade completes, the stripped text parses and has the right shape; the payload carries the three fields as `trigger`, `empathyGap` and `repair` |
| `Mirror.MirrorFailures` | server/src/routes/mirror.ts:14-21 | a body that is malformed or has fewer than two messages gives 400; every failure after an accepted body gives 500 (the corrected mapping; see "## Findings") |
| `Mirror.ShapeFailureBlamesRequest` | server/src/routes/mirror.ts:79-97 | with the catch block as written, a model output of `[]` is answered 400 "Invalid request body"; the corrected mapping answers 500 |
| `Mirror.MirrorResponsesAgree` | server/src/routes/mirror.ts:94-100 | the corrected and the as-written responses are equal on every outcome but a wrongly shaped model output, where they answer 500 and 400 |
| `Mirror.HandleMirror` | server/src/routes/mirror.ts:39-102 | the response is `MirrorResponse`, which uses the corrected `catch` mapping of "## Findings"; on every outcome but a wrongly shaped model output it equals the response of the `catch` block as written; a rejected body is answered without any upstream request; otherwise the upstream log grows by exactly the cascade's events |

## Left out

- **Network and environment.**
  - The model leaves out the `fetch` call, the URL, the headers and the API key.
  - It leaves out dotenv loading and the `process.exit` when the key is missing (`server/src/lib/openrouter.ts:1-13`).
  - Each request's answer is a parameter of the `Upstream`. Its body is reduced to "unreadable", "no string content" or "content".
- **Timers.** A sleep is an entry in the log, not a real wait.
- **Logging.** Every `console.*` call is left out, together with the text of the "All models exhausted" error (only the fact that it is thrown is modelled).
- **Express plumbing.** The model leaves out `index.ts`, `cors`, the body-size limit, the health endpoint and the router mounting.
- **Request validation.** Zod validation is modelled only as accept or reject: `Malformed` stands for every body the schemas refuse. The `details` array of a 400 is modelled only as a flag.
- **The prompt texts.** They are a parameter of both handlers.
  - `server/src/routes/simulate.ts:5` imports `SIMULATE_SYSTEM_PROMPT`, but `server/src/prompts/simulateSystem.ts` exports only a builder function, `buildSimulateSystemPrompt`.
  - The text of `MIRROR_SYSTEM_PROMPT` is passed through unchanged, so its wording plays no part in what is proved.
- **JSON parsing.** `JSON.parse` is a parameter: a parser returning no document on a syntax error. JSON values are reduced to objects, strings and everything else.
- **Numbers.** Temperatures are Dafny reals and are only passed through. No floating-point behaviour is modelled.
- **`FALLBACK_REFLECTION`.** The constant at `server/src/routes/mirror.ts:30-37` is never used by the code, so the model has no fallback reflection.
- **Fallback replies.** The simulate route answers with `{ reply }` or a 500. It sends no fallback line and no `isFallback` flag. The mirror route sends no `response_format`.
- **Non-string content.** A 2xx reply whose `content` is null or missing gives `undefined` through the optional chain, and the emptiness test retries. Content of any other non-string type makes `.trim()` throw, and the surrounding `catch` retries. The model folds both into "no string content" (`Body(None)`), which is retried.
- `Mirror.HandleMirror`: answers 500, not the source's 400, when the model's output parses but fails the output schema (see "## Findings"); on every other outcome its contract also states the response as written.
- `Mirror.TranscriptLayout`: states the transcript's layout position by position, rather than as a single equation with `Array.prototype.join`.
- `Mirror.FenceRoundTrip`: holds for a non-empty, trimmed text without a fence; other texts are covered by `Mirror.CaptureIsShortest` only.
- **The frontend.** The client application is not part of this model.

## Findings

| source | as written | input that shows it | evidently intended | confidence | as-written member | corrected member |
|---|---|---|---|---|---|---|
| server/src/routes/mirror.ts:79-97 | a model output that parses as JSON but fails `MirrorResponseSchema` throws a `ZodError`, which the outer `catch` answers with 400 "Invalid request body", blaming a request that was valid | a valid body with two messages, and a model reply of `[]` | 500 "Internal server error", as for output that is not JSON at all | not executed | `Mirror.ShapeFailureBlamesRequest` | `Mirror.MirrorFailures` |
