/**
 * The model-cascade chat-completion client (server/src/lib/openrouter.ts).
 *
 * `ChatCompletion` walks `FreeModels` in order; `TryModel` gives one model up to
 * `RetriesPerModel` attempts, sleeping `BackoffDelay(k)` before attempt k > 0, and
 * classifies each upstream answer as accept, retry or abandon.
 *
 * The network is an `Upstream` object: `answer(n)` is what the n-th request made
 * through it receives, and its `log` records every request body and every sleep
 * in the order they happen. Both methods are proved against the pure functions
 * `RunModel` and `RunCascade`, which say which answers are consumed, which events
 * are logged and what is returned; the properties of those functions are in
 * module CascadeProperties.
 */
module OpenRouter {
  import opened Wrappers
  import opened Text

  /** The cascade, in order of preference. */
  const FreeModels: seq<string> := [
    "google/gemma-3-12b-it:free",
    "google/gemma-3n-e4b-it:free",
    "arcee-ai/trinity-large-preview:free",
    "meta-llama/llama-3.3-70b-instruct:free",
    "mistralai/mistral-small-3.1-24b-instruct:free"
  ]

  const RetriesPerModel: nat := 2
  const BaseDelayMs: nat := 2000

  /** Request-body defaults for omitted options. */
  const DefaultTemperature: real := 0.8
  const DefaultMaxTokens: int := 300

  datatype Role = System | User | Assistant

  datatype ChatMessage = ChatMessage(role: Role, content: string)

  /** `{ type: "json_object" }`, the only response format the client accepts. */
  datatype ResponseFormat = JsonObject

  /** What a caller hands to the cascade; absent fields are `None`. */
  datatype ChatOptions = ChatOptions(
    messages: seq<ChatMessage>,
    temperature: Option<real>,
    maxTokens: Option<int>,
    responseFormat: Option<ResponseFormat>)

  /** The JSON body of one upstream request. */
  datatype RequestBody = RequestBody(
    model: string,
    messages: seq<ChatMessage>,
    temperature: real,
    maxTokens: int,
    responseFormat: Option<ResponseFormat>)

  /** The body of an upstream reply, as far as the client reads it. For a 2xx
      reply, `content` is `choices[0].message.content` when that is a string;
      `None` when it is missing or of another type. `BodyError` stands for a body
      whose reading or JSON parsing threw. */
  datatype Body = BodyError | Body(content: Option<string>)

  /** What one upstream request ends in: the fetch itself throws, or a reply
      with an HTTP status arrives. */
  datatype Answer = Thrown | Reply(status: int, body: Body)

  /** What the client does with one answer. */
  datatype Disposition = Accept(text: string) | Retry | Abandon

  /** What the cascade returns, or the "All models exhausted" error it throws. */
  datatype CascadeResult = Completed(text: string) | Exhausted

  /** One entry of the upstream's log. */
  datatype Event = Request(body: RequestBody) | Sleep(ms: nat)

  /** `res.ok`. */
  predicate IsOk(status: int) {
    200 <= status <= 299
  }

  /** The sleep before attempt `attempt` (zero-based) of a model: one base
      interval before the second attempt, doubling with each further attempt. */
  function BackoffDelay(attempt: nat): (ms: nat)
    requires attempt >= 1
    ensures ms >= BaseDelayMs
  {
    if attempt == 1 then BaseDelayMs else 2 * BackoffDelay(attempt - 1)
  }

  /** The request body sent to `model`: the caller's messages unchanged, the
      defaults 0.8 and 300 for an omitted temperature and token limit, and a
      response format only when one was supplied. */
  function BuildRequestBody(model: string, options: ChatOptions): (b: RequestBody)
    ensures b.model == model && b.messages == options.messages
    ensures options.temperature.None? ==> b.temperature == DefaultTemperature
    ensures options.temperature.Some? ==> b.temperature == options.temperature.value
    ensures options.maxTokens.None? ==> b.maxTokens == DefaultMaxTokens
    ensures options.maxTokens.Some? ==> b.maxTokens == options.maxTokens.value
    ensures b.responseFormat == options.responseFormat
  {
    RequestBody(
      model,
      options.messages,
      options.temperature.GetOr(DefaultTemperature),
      options.maxTokens.GetOr(DefaultMaxTokens),
      options.responseFormat)
  }

  /** How the client treats one answer. Only a 2xx reply with non-blank content
      is accepted, and then its trimmed content is the text. */
  function Classify(a: Answer): (d: Disposition)
    ensures d.Accept? ==> d.text != [] && IsTrimmed(d.text)
    ensures d.Accept? ==> a.Reply? && IsOk(a.status) && a.body.Body? && a.body.content.Some?
                          && d.text == Trim(a.body.content.value)
  {
    match a
    case Thrown => Retry
    case Reply(status, body) =>
      if status == 429 || status >= 500 then Retry
      else if !IsOk(status) then (if body.BodyError? then Retry else Abandon)
      else if body.BodyError? || body.content.None? then Retry
      else if Trim(body.content.value) == [] then Retry
      else Accept(Trim(body.content.value))
  }

  /** The bodies of the requests in a log, in order. */
  function Requests(events: seq<Event>): (bodies: seq<RequestBody>)
  {
    if |events| == 0 then []
    else if events[0].Request? then [events[0].body] + Requests(events[1..])
    else Requests(events[1..])
  }

  /** The events of attempt `attempt` on `model`: the backoff sleep, if any, then
      the request. */
  function AttemptEvents(model: string, options: ChatOptions, attempt: nat): seq<Event> {
    (if attempt > 0 then [Sleep(BackoffDelay(attempt))] else [])
      + [Request(BuildRequestBody(model, options))]
  }

  /** What one model's turn returns, which events it logs and how many upstream
      answers it consumes. */
  datatype ModelRun = ModelRun(result: Option<string>, events: seq<Event>, used: nat)

  /** The turn of `model` from attempt `attempt` on, when the next request made
      receives `answer(next)`. */
  function RunModel(answer: nat -> Answer, next: nat, model: string, options: ChatOptions, attempt: nat): ModelRun
    decreases RetriesPerModel - attempt
  {
    if attempt >= RetriesPerModel then ModelRun(None, [], 0)
    else
      var here := AttemptEvents(model, options, attempt);
      var d := Classify(answer(next));
      if d.Accept? then ModelRun(Some(d.text), here, 1)
      else if d.Abandon? then ModelRun(None, here, 1)
      else
        var rest := RunModel(answer, next + 1, model, options, attempt + 1);
        ModelRun(rest.result, here + rest.events, 1 + rest.used)
  }

  /** What a whole cascade returns, which events it logs and how many upstream
      answers it consumes. */
  datatype CascadeRun = CascadeRun(result: CascadeResult, events: seq<Event>, used: nat)

  /** The turn each model would take: `turns(n, m)` is the turn of model `m`
      when its first request receives answer `n`. */
  type Turns = (nat, string) -> ModelRun

  /** The turns `tryModel` takes against the upstream `answer`. */
  function ModelTurns(answer: nat -> Answer, options: ChatOptions): (turns: Turns)
    ensures forall n: nat, m: string :: turns(n, m) == RunModel(answer, n, m, options, 0)
  {
    (n: nat, m: string) => RunModel(answer, n, m, options, 0)
  }

  /** The cascade over `models`, when the next request made receives answer
      `next`: the first model whose turn returns a text completes it, and it is
      exhausted when no model does. */
  function RunCascade(turns: Turns, next: nat, models: seq<string>): CascadeRun
    decreases |models|
  {
    if models == [] then CascadeRun(Exhausted, [], 0)
    else
      var turn := turns(next, models[0]);
      if turn.result.Some? then CascadeRun(Completed(turn.result.value), turn.events, turn.used)
      else
        var rest := RunCascade(turns, next + turn.used, models[1..]);
        CascadeRun(rest.result, turn.events + rest.events, turn.used + rest.used)
  }

  /** Concatenation of sequences is associative. */
  lemma AppendAssoc<T>(a: seq<T>, b: seq<T>, c: seq<T>)
    ensures a + (b + c) == (a + b) + c
  {
  }

  lemma {:induction false} RequestsAppend(a: seq<Event>, b: seq<Event>)
    ensures Requests(a + b) == Requests(a) + Requests(b)
  {
    if a == [] {
      assert a + b == b;
    } else {
      assert (a + b)[1..] == a[1..] + b;
      RequestsAppend(a[1..], b);
    }
  }

  /**
   * The upstream chat-completion endpoint together with the clock: a fixed
   * answer for every request, the number of requests served, and the log of
   * requests and sleeps.
   */
  class Upstream {
    const answer: nat -> Answer
    var served: nat
    var log: seq<Event>

    constructor (answer: nat -> Answer)
      ensures this.answer == answer && served == 0 && log == []
    {
      this.answer := answer;
      served := 0;
      log := [];
    }

    /** POST one request body; the reply is the next scripted answer. */
    method Post(body: RequestBody) returns (a: Answer)
      modifies this
      ensures a == answer(old(served))
      ensures served == old(served) + 1 && log == old(log) + [Request(body)]
    {
      a := answer(served);
      served := served + 1;
      log := log + [Request(body)];
    }

    /** Suspend for `ms` milliseconds. */
    method Sleep(ms: nat)
      modifies this
      ensures served == old(served) && log == old(log) + [Event.Sleep(ms)]
    {
      log := log + [Event.Sleep(ms)];
    }
  }

  /** One pass of `tryModel`'s loop body: the backoff sleep for attempt
      `attempt` if it is not the first, one request, and what the client makes
      of the answer. */
  method Attempt(up: Upstream, model: string, options: ChatOptions, attempt: nat) returns (d: Disposition)
    requires attempt < RetriesPerModel
    modifies up
    ensures d == Classify(up.answer(old(up.served)))
    ensures up.served == old(up.served) + 1
    ensures up.log == old(up.log) + AttemptEvents(model, options, attempt)
  {
    if attempt > 0 {
      up.Sleep(BackoffDelay(attempt));
    }
    var a := up.Post(BuildRequestBody(model, options));
    if a.Thrown? {
      return Retry;
    }
    // Rate limits and server errors: try again.
    if a.status == 429 || a.status >= 500 {
      return Retry;
    }
    if !IsOk(a.status) {
      // Reading the error body sits inside the same try, so its failure retries.
      if a.body.BodyError? {
        return Retry;
      }
      return Abandon;
    }
    // Unparseable JSON, or no string at choices[0].message.content.
    if a.body.BodyError? || a.body.content.None? {
      return Retry;
    }
    var content := Trim(a.body.content.value);
    if content == [] {
      return Retry;
    }
    return Accept(content);
  }

  /** The loop invariant of `TryModel`: the whole turn `run0`, which started
      with `served0` answers served and log `log0`, is what has happened up to
      now (`served`, `log`) followed by the turn from attempt `attempt` on. */
  ghost predicate ModelSoFar(answer: nat -> Answer, model: string, options: ChatOptions, run0: ModelRun,
                             served0: nat, log0: seq<Event>, served: nat, log: seq<Event>, attempt: nat)
  {
    var rest := RunModel(answer, served, model, options, attempt);
    && run0.result == rest.result
    && served0 + run0.used == served + rest.used
    && log0 + run0.events == log + rest.events
  }

  /** An attempt that accepts or abandons ends the turn there. */
  lemma ModelSoFarStop(answer: nat -> Answer, model: string, options: ChatOptions, run0: ModelRun,
                       served0: nat, log0: seq<Event>, served: nat, log: seq<Event>, attempt: nat)
    requires attempt < RetriesPerModel && !Classify(answer(served)).Retry?
    requires ModelSoFar(answer, model, options, run0, served0, log0, served, log, attempt)
    ensures var d := Classify(answer(served));
      && run0.result == (if d.Accept? then Some(d.text) else None)
      && served0 + run0.used == served + 1
      && log0 + run0.events == log + AttemptEvents(model, options, attempt)
  {
  }

  /** An attempt that is retried hands the invariant on to the next attempt. */
  lemma ModelSoFarNext(answer: nat -> Answer, model: string, options: ChatOptions, run0: ModelRun,
                       served0: nat, log0: seq<Event>, served: nat, log: seq<Event>, attempt: nat,
                       servedAfter: nat, logAfter: seq<Event>)
    requires attempt < RetriesPerModel && Classify(answer(served)).Retry?
    requires ModelSoFar(answer, model, options, run0, served0, log0, served, log, attempt)
    requires servedAfter == served + 1 && logAfter == log + AttemptEvents(model, options, attempt)
    ensures ModelSoFar(answer, model, options, run0, served0, log0, servedAfter, logAfter, attempt + 1)
  {
    var here := AttemptEvents(model, options, attempt);
    var rest := RunModel(answer, served + 1, model, options, attempt + 1);
    AppendAssoc(log, here, rest.events);
  }

  /** The invariant with no attempt left: the turn returned nothing and is over. */
  lemma ModelSoFarDone(answer: nat -> Answer, model: string, options: ChatOptions, run0: ModelRun,
                       served0: nat, log0: seq<Event>, served: nat, log: seq<Event>)
    requires ModelSoFar(answer, model, options, run0, served0, log0, served, log, RetriesPerModel)
    ensures run0.result == None && served0 + run0.used == served && log0 + run0.events == log
  {
    assert log + [] == log;
  }

  /** `tryModel`: up to `RetriesPerModel` attempts on one model. */
  method TryModel(up: Upstream, model: string, options: ChatOptions) returns (r: Option<string>)
    modifies up
    ensures var run := RunModel(up.answer, old(up.served), model, options, 0);
      && r == run.result
      && up.served == old(up.served) + run.used
      && up.log == old(up.log) + run.events
  {
    ghost var run0 := RunModel(up.answer, up.served, model, options, 0);
    ghost var served0, log0 := up.served, up.log;
    for attempt := 0 to RetriesPerModel
      invariant ModelSoFar(up.answer, model, options, run0, served0, log0, up.served, up.log, attempt)
    {
      ghost var servedBefore, logBefore := up.served, up.log;
      var d := Attempt(up, model, options, attempt);
      assert d == Classify(up.answer(servedBefore));
      assert up.served == servedBefore + 1;
      assert up.log == logBefore + AttemptEvents(model, options, attempt);
      match d
      case Retry =>
        ModelSoFarNext(up.answer, model, options, run0, served0, log0, servedBefore, logBefore, attempt,
                       up.served, up.log);
      case Abandon =>
        // A non-retryable status: move on to the next model.
        ModelSoFarStop(up.answer, model, options, run0, served0, log0, servedBefore, logBefore, attempt);
        return None;
      case Accept(content) =>
        ModelSoFarStop(up.answer, model, options, run0, served0, log0, servedBefore, logBefore, attempt);
        return Some(content);
    }
    ModelSoFarDone(up.answer, model, options, run0, served0, log0, up.served, up.log);
    return None;
  }

  /** The loop invariant of `Cascade`: the whole run `run0`, which started with
      `served0` answers served and log `log0`, is what has happened up to now
      (`served`, `log`) followed by the cascade over the models still to try. */
  ghost predicate CascadeSoFar(turns: Turns, run0: CascadeRun, served0: nat, log0: seq<Event>,
                               served: nat, log: seq<Event>, models: seq<string>)
  {
    var rest := RunCascade(turns, served, models);
    && run0.result == rest.result
    && served0 + run0.used == served + rest.used
    && log0 + run0.events == log + rest.events
  }

  /** A model that returns a text ends the whole run with it. */
  lemma CascadeSoFarStop(turns: Turns, run0: CascadeRun, served0: nat, log0: seq<Event>,
                         served: nat, log: seq<Event>, models: seq<string>, i: nat)
    requires i < |models| && turns(served, models[i]).result.Some?
    requires CascadeSoFar(turns, run0, served0, log0, served, log, models[i..])
    ensures var turn := turns(served, models[i]);
      && run0.result == Completed(turn.result.value)
      && served0 + run0.used == served + turn.used
      && log0 + run0.events == log + turn.events
  {
    assert models[i..][0] == models[i];
  }

  /** A model that returns nothing hands the invariant on to the next model. */
  lemma CascadeSoFarNext(turns: Turns, run0: CascadeRun, served0: nat, log0: seq<Event>,
                         served: nat, log: seq<Event>, models: seq<string>, i: nat,
                         servedAfter: nat, logAfter: seq<Event>)
    requires i < |models| && turns(served, models[i]).result.None?
    requires CascadeSoFar(turns, run0, served0, log0, served, log, models[i..])
    requires servedAfter == served + turns(served, models[i]).used
    requires logAfter == log + turns(served, models[i]).events
    ensures CascadeSoFar(turns, run0, served0, log0, servedAfter, logAfter, models[i + 1..])
  {
    var turn := turns(served, models[i]);
    assert models[i..][0] == models[i] && models[i..][1..] == models[i + 1..];
    var rest := RunCascade(turns, served + turn.used, models[i + 1..]);
    AppendAssoc(log, turn.events, rest.events);
  }

  /** The invariant with no model left: the run is exhausted and over. */
  lemma CascadeSoFarDone(turns: Turns, run0: CascadeRun, served0: nat, log0: seq<Event>,
                         served: nat, log: seq<Event>)
    requires CascadeSoFar(turns, run0, served0, log0, served, log, [])
    ensures run0.result == Exhausted && served0 + run0.used == served && log0 + run0.events == log
  {
    assert log + [] == log;
  }

  /** The loop of `chatCompletion` over a list of models: each model's turn in
      order, returning the first success. */
  method Cascade(up: Upstream, models: seq<string>, options: ChatOptions) returns (r: CascadeResult)
    modifies up
    ensures var run := RunCascade(ModelTurns(up.answer, options), old(up.served), models);
      && r == run.result
      && up.served == old(up.served) + run.used
      && up.log == old(up.log) + run.events
  {
    ghost var turns := ModelTurns(up.answer, options);
    ghost var run0 := RunCascade(turns, up.served, models);
    ghost var served0, log0 := up.served, up.log;
    assert models[0..] == models;
    for i := 0 to |models|
      invariant CascadeSoFar(turns, run0, served0, log0, up.served, up.log, models[i..])
    {
      ghost var servedBefore, logBefore := up.served, up.log;
      ghost var turn := turns(up.served, models[i]);
      assert turn == RunModel(up.answer, up.served, models[i], options, 0);
      var result := TryModel(up, models[i], options);
      assert result == turn.result;
      assert up.served == servedBefore + turn.used;
      assert up.log == logBefore + turn.events;
      // A returned text is never empty, so JavaScript's truthiness test is `Some?`.
      if result.Some? {
        CascadeSoFarStop(turns, run0, served0, log0, servedBefore, logBefore, models, i);
        return Completed(result.value);
      }
      CascadeSoFarNext(turns, run0, served0, log0, servedBefore, logBefore, models, i, up.served, up.log);
    }
    assert models[|models|..] == [];
    CascadeSoFarDone(turns, run0, served0, log0, up.served, up.log);
    return Exhausted;
  }

  /** `chatCompletion`: the configured models in order, returning the first
      success or reporting exhaustion. */
  method ChatCompletion(up: Upstream, options: ChatOptions) returns (r: CascadeResult)
    modifies up
    ensures var run := RunCascade(ModelTurns(up.answer, options), old(up.served), FreeModels);
      && r == run.result
      && up.served == old(up.served) + run.used
      && up.log == old(up.log) + run.events
  {
    r := Cascade(up, FreeModels, options);
  }
}
