/**
 * What the two POST routes share (server/src/routes/simulate.ts and
 * server/src/routes/mirror.ts): the request body as the zod schemas see it,
 * the failures a handler can meet, the JSON response, the `catch` block that
 * turns a failure into a status, and the cascade seen as a function of its
 * options.
 */
module Routes {
  import opened OpenRouter

  /** `z.enum(["user", "ai"])`. */
  datatype Speaker = UserTurn | AiTurn

  datatype Message = Message(role: Speaker, text: string)

  datatype Context = Context(situation: string, person: string, emotion: string)

  /** A body with the shape both schemas describe. */
  datatype Conversation = Conversation(context: Context, messages: seq<Message>)

  /** The request body as far as the schemas decide: `Malformed` stands for every
      body they reject whatever the route (a missing or ill-typed field, an
      unknown role). The mirror route also rejects a well-typed body with fewer
      than two messages. */
  datatype RequestJson = Malformed | WellTyped(conversation: Conversation)

  /** What a handler can throw: a zod error on the request body, the cascade's
      "All models exhausted", a `SyntaxError` from `JSON.parse` of the model
      output, or a zod error on the parsed model output. */
  datatype Fault = InvalidBody | CascadeExhausted | OutputNotJson | OutputShape

  /** `err instanceof z.ZodError`. */
  predicate IsZodError(f: Fault) {
    f.InvalidBody? || f.OutputShape?
  }

  /** The JSON a handler sends. `ErrorPayload.withDetails` says whether the zod
      issues are attached as `details`. */
  datatype Payload =
    | ReplyPayload(reply: string)
    | ReflectionPayload(trigger: string, empathyGap: string, repair: string)
    | ErrorPayload(error: string, withDetails: bool)

  datatype Response = Response(status: int, payload: Payload)

  const BadRequest: Response := Response(400, ErrorPayload("Invalid request body", true))
  const ServerError: Response := Response(500, ErrorPayload("Internal server error", false))

  /** Both routes' `catch` block as written: every zod error is answered as a bad
      request body, whichever schema threw it. */
  function ErrorResponseAsWritten(f: Fault): (r: Response)
    ensures r == BadRequest || r == ServerError
  {
    if IsZodError(f) then BadRequest else ServerError
  }

  /** The mapping the routes evidently intend, and the one the model's handlers
      use: only a rejected request body is the client's fault. */
  function ErrorResponse(f: Fault): (r: Response)
    ensures r.status == 400 <==> f == InvalidBody
    ensures r.status != 400 ==> r == ServerError
  {
    if f == InvalidBody then BadRequest else ServerError
  }

  /** The two mappings differ exactly on a zod error raised by the model's output. */
  lemma ErrorMappingsAgree(f: Fault)
    ensures ErrorResponseAsWritten(f) == ErrorResponse(f) <==> !f.OutputShape?
  {
  }

  /** A response carries an error payload exactly when its status is not 200. */
  predicate WellFormedResponse(r: Response) {
    (r.status == 200 <==> !r.payload.ErrorPayload?)
    && (r.status == 200 || r.status == 400 || r.status == 500)
  }

  lemma ErrorResponsesWellFormed(f: Fault)
    ensures WellFormedResponse(ErrorResponse(f)) && WellFormedResponse(ErrorResponseAsWritten(f))
    ensures ErrorResponse(f).status != 200
  {
  }

  /** What a handler receives from `chatCompletion` for given options: the text,
      or the exhaustion it throws. */
  type Completion = ChatOptions -> CascadeResult

  /** The completion an upstream that answers its `n`-th request with
      `answer(n)` gives when `next` requests were already served. */
  function CascadeCompletion(answer: nat -> Answer, next: nat): Completion {
    (options: ChatOptions) => RunCascade(ModelTurns(answer, options), next, FreeModels).result
  }
}
