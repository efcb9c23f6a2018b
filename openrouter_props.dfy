/**
 * What the cascade promises, proved about `RunModel` and `RunCascade` (and so,
 * through the postconditions of `TryModel`, `Cascade` and `ChatCompletion`,
 * about the methods): how many upstream calls each model gets, when the client
 * sleeps and for how long, that the first acceptable answer ends everything,
 * the order in which models are tried, and that exhaustion is the only way to
 * fail.
 *
 * The cascade lemmas hold for any `turns` with the shape or the outcomes a
 * model's turn has; `ModelTurnsShaped` and `ModelTurnsOutcome` show that the
 * turns `tryModel` takes have them.
 */
module CascadeProperties {
  import opened Wrappers
  import opened Text
  import opened OpenRouter

  /** The events of `n` attempts on `model`, starting at attempt `from`. */
  function Attempts(model: string, options: ChatOptions, from: nat, n: nat): seq<Event>
    decreases n
  {
    if n == 0 then [] else AttemptEvents(model, options, from) + Attempts(model, options, from + 1, n - 1)
  }

  /** Index of `m` in `models`, or `|models|` when it is not there. */
  function IndexOf(models: seq<string>, m: string): (k: nat)
    ensures k <= |models|
  {
    if models == [] then 0
    else if models[0] == m then 0
    else 1 + IndexOf(models[1..], m)
  }

  /** A listed model is found at its first position. */
  lemma {:induction false} IndexOfFound(models: seq<string>, m: string)
    requires m in models
    ensures IndexOf(models, m) < |models| && models[IndexOf(models, m)] == m
  {
    if models[0] != m {
      assert m in models[1..];
      IndexOfFound(models[1..], m);
    }
  }

  /** No model is listed twice: the first position of each is its own. */
  ghost predicate Distinct(models: seq<string>) {
    forall i :: 0 <= i < |models| ==> IndexOf(models, models[i]) == i
  }

  lemma DistinctTail(models: seq<string>)
    requires Distinct(models) && models != []
    ensures Distinct(models[1..])
  {
    var tail := models[1..];
    forall i | 0 <= i < |tail|
      ensures IndexOf(tail, tail[i]) == i
    {
      assert tail[i] == models[i + 1];
      assert IndexOf(models, models[i + 1]) == i + 1;
    }
  }

  /** Two positions of a list of distinct models hold different models. */
  lemma DistinctAt(models: seq<string>, i: nat, j: nat)
    requires Distinct(models) && i < j < |models|
    ensures models[i] != models[j]
  {
    assert IndexOf(models, models[i]) == i && IndexOf(models, models[j]) == j;
  }

  /** The number of request bodies addressed to `m`. */
  function CountFor(bodies: seq<RequestBody>, m: string): (n: nat)
    ensures n <= |bodies|
  {
    if bodies == [] then 0
    else (if bodies[0].model == m then 1 else 0) + CountFor(bodies[1..], m)
  }

  /** Every sleep sits between two requests with the same body and lasts
      `BaseDelayMs`: the client only waits between two attempts on one model. */
  ghost predicate SleepsBetweenRetries(events: seq<Event>) {
    forall i :: 0 <= i < |events| && events[i].Sleep? ==>
      && 0 < i < |events| - 1
      && events[i - 1].Request? && events[i + 1].Request?
      && events[i - 1].body == events[i + 1].body
      && events[i].ms == BaseDelayMs
  }

  // ---------------------------------------------------------------------------
  // Backoff and classification

  function Pow2(k: nat): (p: nat)
    ensures p >= 1
  {
    if k == 0 then 1 else 2 * Pow2(k - 1)
  }

  /** The backoff is `BaseDelayMs * 2^(attempt - 1)`. */
  lemma {:induction false} BackoffFormula(attempt: nat)
    requires attempt >= 1
    ensures BackoffDelay(attempt) == BaseDelayMs * Pow2(attempt - 1)
  {
    if attempt > 1 {
      BackoffFormula(attempt - 1);
      assert Pow2(attempt - 1) == 2 * Pow2(attempt - 2);
    }
  }

  /** 429 and 5xx are retried whatever the body; a thrown request is retried;
      any other non-2xx status with a readable body abandons the model. */
  lemma StatusDispositions(status: int, body: Body)
    ensures status == 429 || status >= 500 ==> Classify(Reply(status, body)) == Retry
    ensures status != 429 && status < 500 && !IsOk(status) && body.Body? ==>
              Classify(Reply(status, body)) == Abandon
    ensures Classify(Thrown) == Retry
  {
  }

  /** A 2xx reply is accepted exactly when its content is a string that is not
      blank, and then the text is that content trimmed. */
  lemma OkReplyAccepted(status: int, content: string)
    requires IsOk(status)
    ensures Classify(Reply(status, Body(Some(content)))).Accept? <==> Trim(content) != []
    ensures Trim(content) != [] ==> Classify(Reply(status, Body(Some(content)))) == Accept(Trim(content))
    ensures Classify(Reply(status, Body(None))) == Retry && Classify(Reply(status, BodyError)) == Retry
  {
  }

  // ---------------------------------------------------------------------------
  // One model's turn

  lemma RequestsOfAttempt(model: string, options: ChatOptions, attempt: nat)
    ensures Requests(AttemptEvents(model, options, attempt)) == [BuildRequestBody(model, options)]
  {
    var b := BuildRequestBody(model, options);
    var e := AttemptEvents(model, options, attempt);
    assert Requests([]) == [] && [b] + [] == [b];
    if attempt > 0 {
      assert e == [Sleep(BackoffDelay(attempt)), Request(b)];
      assert e[1..] == [Request(b)];
      assert e[1..][1..] == [];
    } else {
      assert e == [Request(b)];
      assert e[1..] == [];
    }
  }

  lemma RequestCountAppend(a: seq<Event>, b: seq<Event>)
    ensures |Requests(a + b)| == |Requests(a)| + |Requests(b)|
  {
    RequestsAppend(a, b);
  }

  /** `n` attempts on one model log `n` requests, each with the body built for
      that model. */
  lemma {:induction false} AttemptsRequests(model: string, options: ChatOptions, from: nat, n: nat)
    ensures |Requests(Attempts(model, options, from, n))| == n
    ensures forall i :: 0 <= i < n ==> Requests(Attempts(model, options, from, n))[i] == BuildRequestBody(model, options)
    decreases n
  {
    if n > 0 {
      var here := AttemptEvents(model, options, from);
      var later := Attempts(model, options, from + 1, n - 1);
      RequestsOfAttempt(model, options, from);
      AttemptsRequests(model, options, from + 1, n - 1);
      RequestsAppend(here, later);
    } else {
      assert Requests([]) == [];
    }
  }

  /** A model's turn makes between one and the remaining number of attempts,
      and its log is fixed by that number: before each attempt k > 0 the sleep
      `BackoffDelay(k)`, then the request. */
  lemma {:induction false} ModelTurnShape(answer: nat -> Answer, next: nat, model: string, options: ChatOptions, attempt: nat)
    requires attempt < RetriesPerModel
    ensures var run := RunModel(answer, next, model, options, attempt);
      && 1 <= run.used <= RetriesPerModel - attempt
      && run.events == Attempts(model, options, attempt, run.used)
    decreases RetriesPerModel - attempt
  {
    var run := RunModel(answer, next, model, options, attempt);
    var here := AttemptEvents(model, options, attempt);
    if Classify(answer(next)).Retry? {
      var rest := RunModel(answer, next + 1, model, options, attempt + 1);
      if attempt + 1 < RetriesPerModel {
        ModelTurnShape(answer, next + 1, model, options, attempt + 1);
      } else {
        assert rest.events == [] && rest.used == 0;
      }
      assert Attempts(model, options, attempt + 1, rest.used) == rest.events;
    } else {
      assert run.events == here + [];
    }
  }

  /** With two attempts per model a turn logs either one request, or a request,
      a 2000 ms sleep and the same request again; attempt 0 never sleeps. */
  lemma ModelTurnEvents(answer: nat -> Answer, next: nat, model: string, options: ChatOptions)
    ensures var run := RunModel(answer, next, model, options, 0);
      var b := BuildRequestBody(model, options);
      || (run.used == 1 && run.events == [Request(b)])
      || (run.used == 2 && run.events == [Request(b), Sleep(2000), Request(b)])
  {
    ModelTurnShape(answer, next, model, options, 0);
    var b := BuildRequestBody(model, options);
    assert Attempts(model, options, 0, 1) == [Request(b)];
    assert Attempts(model, options, 1, 1) == [Sleep(2000), Request(b)];
  }

  /** The answers a turn consumes: all but the last were retried; the last was
      accepted and is the result, or abandoned the model, or was a retry on the
      final attempt. */
  lemma {:induction false} ModelTurnOutcome(answer: nat -> Answer, next: nat, model: string, options: ChatOptions, attempt: nat)
    requires attempt < RetriesPerModel
    ensures var run := RunModel(answer, next, model, options, attempt);
      var last := Classify(answer(next + run.used - 1));
      && run.used >= 1
      && (forall j :: next <= j < next + run.used - 1 ==> Classify(answer(j)) == Retry)
      && (run.result.Some? ==> last == Accept(run.result.value))
      && (run.result.None? ==> last == Abandon || (last == Retry && run.used == RetriesPerModel - attempt))
    decreases RetriesPerModel - attempt
  {
    if Classify(answer(next)).Retry? && attempt + 1 < RetriesPerModel {
      ModelTurnOutcome(answer, next + 1, model, options, attempt + 1);
    }
  }

  /** A non-retryable status on the first attempt costs exactly one call, no
      sleep, and ends the model's turn with nothing. */
  lemma AbandonCostsOneCall(answer: nat -> Answer, next: nat, model: string, options: ChatOptions)
    requires Classify(answer(next)) == Abandon
    ensures RunModel(answer, next, model, options, 0)
            == ModelRun(None, [Request(BuildRequestBody(model, options))], 1)
  {
  }

  // ---------------------------------------------------------------------------
  // What the cascade needs to know about a turn

  /** `t` has the shape of a turn of `model`: one to `RetriesPerModel`
      attempts, logged in order. */
  ghost predicate IsTurnOf(model: string, options: ChatOptions, t: ModelRun) {
    1 <= t.used <= RetriesPerModel && t.events == Attempts(model, options, 0, t.used)
  }

  ghost predicate ShapedTurns(turns: Turns, options: ChatOptions) {
    forall n: nat, m: string {:trigger IsTurnOf(m, options, turns(n, m))} :: IsTurnOf(m, options, turns(n, m))
  }

  /** How the client judges the answer each request receives. */
  function Verdicts(answer: nat -> Answer): (verdict: nat -> Disposition)
    ensures forall j: nat :: verdict(j) == Classify(answer(j))
  {
    (j: nat) => Classify(answer(j))
  }

  /** `t`, starting at answer `n`, consumed answers whose verdicts were all
      retry but the last; the last gave its text, or abandoned the model, or
      was the final retry. */
  ghost predicate TurnOutcome(verdict: nat -> Disposition, n: nat, t: ModelRun) {
    && t.used >= 1
    && (forall j :: n <= j < n + t.used - 1 ==> verdict(j) == Retry)
    && (var last := verdict(n + t.used - 1);
        && (t.result.Some? ==> last == Accept(t.result.value))
        && (t.result.None? ==> last == Abandon || (last == Retry && t.used == RetriesPerModel)))
  }

  ghost predicate TurnOutcomes(verdict: nat -> Disposition, turns: Turns) {
    forall n: nat, m: string :: TurnOutcome(verdict, n, turns(n, m))
  }

  /** The turns `tryModel` takes have the shape of turns. */
  lemma ModelTurnsShaped(answer: nat -> Answer, options: ChatOptions)
    ensures ShapedTurns(ModelTurns(answer, options), options)
  {
    var turns := ModelTurns(answer, options);
    forall n: nat, m: string
      ensures IsTurnOf(m, options, turns(n, m))
    {
      ModelTurnShape(answer, n, m, options, 0);
    }
  }

  /** The outcome of a turn stated on answers is its `TurnOutcome` on their
      verdicts. */
  lemma TurnOutcomeOfAnswers(answer: nat -> Answer, n: nat, t: ModelRun)
    requires t.used >= 1
    requires forall j :: n <= j < n + t.used - 1 ==> Classify(answer(j)) == Retry
    requires var last := Classify(answer(n + t.used - 1));
      && (t.result.Some? ==> last == Accept(t.result.value))
      && (t.result.None? ==> last == Abandon || (last == Retry && t.used == RetriesPerModel))
    ensures TurnOutcome(Verdicts(answer), n, t)
  {
    var verdict := Verdicts(answer);
    forall j | n <= j < n + t.used - 1
      ensures verdict(j) == Retry
    {
      assert Classify(answer(j)) == Retry;
    }
    assert verdict(n + t.used - 1) == Classify(answer(n + t.used - 1));
  }

  /** The turns `tryModel` takes consume the answers as `TurnOutcome` says. */
  lemma ModelTurnsOutcome(answer: nat -> Answer, options: ChatOptions)
    ensures TurnOutcomes(Verdicts(answer), ModelTurns(answer, options))
  {
    var turns := ModelTurns(answer, options);
    var verdict := Verdicts(answer);
    forall n: nat, m: string
      ensures TurnOutcome(verdict, n, turns(n, m))
    {
      ModelTurnOutcome(answer, n, m, options, 0);
      TurnOutcomeOfAnswers(answer, n, turns(n, m));
    }
  }

  lemma {:induction false} CountForAppend(a: seq<RequestBody>, b: seq<RequestBody>, m: string)
    ensures CountFor(a + b, m) == CountFor(a, m) + CountFor(b, m)
  {
    if a != [] {
      assert (a + b)[1..] == a[1..] + b;
      CountForAppend(a[1..], b, m);
    } else {
      assert a + b == b;
    }
  }

  lemma {:induction false} CountForAbsent(a: seq<RequestBody>, m: string)
    requires forall i :: 0 <= i < |a| ==> a[i].model != m
    ensures CountFor(a, m) == 0
  {
    if a != [] {
      CountForAbsent(a[1..], m);
    }
  }

  lemma {:induction false} CountForAll(a: seq<RequestBody>, m: string)
    requires forall i :: 0 <= i < |a| ==> a[i].model == m
    ensures CountFor(a, m) == |a|
  {
    if a != [] {
      CountForAll(a[1..], m);
    }
  }

  lemma AttemptsSleepBetween(model: string, options: ChatOptions, n: nat)
    requires 1 <= n <= RetriesPerModel
    ensures SleepsBetweenRetries(Attempts(model, options, 0, n))
  {
    var b := BuildRequestBody(model, options);
    if n == 1 {
      assert Attempts(model, options, 0, 1) == [Request(b)];
    } else {
      assert Attempts(model, options, 1, 1) == [Sleep(2000), Request(b)];
      assert Attempts(model, options, 0, 2) == [Request(b), Sleep(2000), Request(b)];
    }
  }

  /** The log of one turn of `model`: one request per upstream call, every one
      with the body built for `model`, and sleeps only between them. */
  lemma TurnLog(model: string, options: ChatOptions, t: ModelRun)
    requires IsTurnOf(model, options, t)
    ensures var mine := Requests(t.events);
      && |mine| == t.used
      && (forall i :: 0 <= i < |mine| ==> mine[i] == BuildRequestBody(model, options))
      && SleepsBetweenRetries(t.events)
  {
    AttemptsRequests(model, options, 0, t.used);
    AttemptsSleepBetween(model, options, t.used);
  }

  // ---------------------------------------------------------------------------
  // The cascade
  //
  // Each property below is a predicate on a run, proved for `RunCascade` by
  // induction over the models, with one lemma for the model that completes
  // the run (`...Head`) and one for a model that hands over to the rest
  // (`...Cons`).

  /** Every upstream call is logged as one request, and an exhausted run over
      `k` models made at least `k` calls. */
  ghost predicate CallsLogged(run: CascadeRun, k: nat) {
    && |Requests(run.events)| == run.used
    && (run.result.Exhausted? ==> k <= run.used)
  }

  lemma CallsLoggedHead(model: string, options: ChatOptions, t: ModelRun, k: nat)
    requires IsTurnOf(model, options, t) && t.result.Some?
    ensures CallsLogged(CascadeRun(Completed(t.result.value), t.events, t.used), k)
  {
    TurnLog(model, options, t);
  }

  lemma CallsLoggedCons(model: string, options: ChatOptions, t: ModelRun, rest: CascadeRun, k: nat)
    requires IsTurnOf(model, options, t) && CallsLogged(rest, k)
    ensures CallsLogged(CascadeRun(rest.result, t.events + rest.events, t.used + rest.used), k + 1)
  {
    TurnLog(model, options, t);
    RequestCountAppend(t.events, rest.events);
  }

  lemma {:induction false} CascadeCalls(turns: Turns, options: ChatOptions, next: nat, models: seq<string>)
    requires ShapedTurns(turns, options)
    ensures CallsLogged(RunCascade(turns, next, models), |models|)
    decreases |models|
  {
    var run := RunCascade(turns, next, models);
    if models == [] {
      assert run == CascadeRun(Exhausted, [], 0);
      assert Requests([]) == [];
    } else {
      var turn := turns(next, models[0]);
      assert IsTurnOf(models[0], options, turn);
      if turn.result.None? {
        var rest := RunCascade(turns, next + turn.used, models[1..]);
        CascadeCalls(turns, options, next + turn.used, models[1..]);
        CallsLoggedCons(models[0], options, turn, rest, |models[1..]|);
        assert run == CascadeRun(rest.result, turn.events + rest.events, turn.used + rest.used);
      } else {
        CallsLoggedHead(models[0], options, turn, |models|);
        assert run == CascadeRun(Completed(turn.result.value), turn.events, turn.used);
      }
    }
  }

  /** Every one of `models` received at least one request. */
  ghost predicate CallsEach(reqs: seq<RequestBody>, models: seq<string>) {
    forall m :: m in models ==> CountFor(reqs, m) >= 1
  }

  lemma CallsEachCons(models: seq<string>, options: ChatOptions, mine: seq<RequestBody>, theirs: seq<RequestBody>)
    requires models != [] && mine != []
    requires forall i :: 0 <= i < |mine| ==> mine[i] == BuildRequestBody(models[0], options)
    requires CallsEach(theirs, models[1..])
    ensures CallsEach(mine + theirs, models)
  {
    forall m | m in models
      ensures CountFor(mine + theirs, m) >= 1
    {
      CountForAppend(mine, theirs, m);
      if m == models[0] {
        CountForAll(mine, m);
      } else {
        assert m in models[1..];
      }
    }
  }

  /** An exhausted cascade sent at least one request to every model it lists. */
  lemma {:induction false} ExhaustedCallsEach(turns: Turns, options: ChatOptions, next: nat, models: seq<string>)
    requires ShapedTurns(turns, options)
    ensures var run := RunCascade(turns, next, models);
      run.result.Exhausted? ==> CallsEach(Requests(run.events), models)
    decreases |models|
  {
    var run := RunCascade(turns, next, models);
    if models != [] {
      var turn := turns(next, models[0]);
      assert IsTurnOf(models[0], options, turn);
      if turn.result.None? {
        var rest := RunCascade(turns, next + turn.used, models[1..]);
        ExhaustedCallsEach(turns, options, next + turn.used, models[1..]);
        assert run == CascadeRun(rest.result, turn.events + rest.events, turn.used + rest.used);
        if run.result.Exhausted? {
          TurnLog(models[0], options, turn);
          CallsEachCons(models, options, Requests(turn.events), Requests(rest.events));
          RequestsAppend(turn.events, rest.events);
        }
      }
    }
  }

  lemma MulStep(n: nat)
    ensures (n + 1) * RetriesPerModel == RetriesPerModel + n * RetriesPerModel
  {
  }

  /** The cascade makes at most `RetriesPerModel` upstream calls per model. */
  lemma {:induction false} CascadeCallBound(turns: Turns, options: ChatOptions, next: nat, models: seq<string>)
    requires ShapedTurns(turns, options)
    ensures RunCascade(turns, next, models).used <= |models| * RetriesPerModel
    decreases |models|
  {
    var run := RunCascade(turns, next, models);
    if models != [] {
      var turn := turns(next, models[0]);
      assert IsTurnOf(models[0], options, turn);
      MulStep(|models| - 1);
      if turn.result.None? {
        var rest := RunCascade(turns, next + turn.used, models[1..]);
        CascadeCallBound(turns, options, next + turn.used, models[1..]);
        assert run.used == turn.used + rest.used;
      } else {
        assert run.used == turn.used;
      }
    }
  }

  /** With the five configured models `chatCompletion` never makes more than
      ten upstream calls. */
  lemma AtMostTenCalls(answer: nat -> Answer, next: nat, options: ChatOptions)
    ensures RunCascade(ModelTurns(answer, options), next, FreeModels).used <= 10
  {
    ModelTurnsShaped(answer, options);
    CascadeCallBound(ModelTurns(answer, options), options, next, FreeModels);
  }

  /** The run, which started at answer `next`, returned the first acceptable
      answer it received and made no call after it: no consumed answer but
      the last is acceptable, and the run completed exactly when the last one
      is, with its text. */
  ghost predicate StopsAtFirstSuccess(verdict: nat -> Disposition, next: nat, run: CascadeRun) {
    && (forall j :: next <= j < next + run.used - 1 ==> !verdict(j).Accept?)
    && (run.result.Completed? <==> run.used > 0 && verdict(next + run.used - 1).Accept?)
    && (run.result.Completed? ==> verdict(next + run.used - 1) == Accept(run.result.text))
  }

  lemma StopsAtFirstSuccessHead(verdict: nat -> Disposition, next: nat, t: ModelRun)
    requires TurnOutcome(verdict, next, t) && t.result.Some?
    ensures StopsAtFirstSuccess(verdict, next, CascadeRun(Completed(t.result.value), t.events, t.used))
  {
  }

  lemma StopsAtFirstSuccessCons(verdict: nat -> Disposition, next: nat, t: ModelRun, rest: CascadeRun)
    requires TurnOutcome(verdict, next, t) && t.result.None?
    requires StopsAtFirstSuccess(verdict, next + t.used, rest)
    ensures StopsAtFirstSuccess(verdict, next, CascadeRun(rest.result, t.events + rest.events, t.used + rest.used))
  {
  }

  lemma {:induction false} CascadeStopsAtFirstSuccess(verdict: nat -> Disposition, turns: Turns, next: nat, models: seq<string>)
    requires TurnOutcomes(verdict, turns)
    ensures StopsAtFirstSuccess(verdict, next, RunCascade(turns, next, models))
    decreases |models|
  {
    var run := RunCascade(turns, next, models);
    if models == [] {
      assert run == CascadeRun(Exhausted, [], 0);
    } else {
      var turn := turns(next, models[0]);
      if turn.result.None? {
        var rest := RunCascade(turns, next + turn.used, models[1..]);
        CascadeStopsAtFirstSuccess(verdict, turns, next + turn.used, models[1..]);
        StopsAtFirstSuccessCons(verdict, next, turn, rest);
        assert run == CascadeRun(rest.result, turn.events + rest.events, turn.used + rest.used);
      } else {
        StopsAtFirstSuccessHead(verdict, next, turn);
        assert run == CascadeRun(Completed(turn.result.value), turn.events, turn.used);
      }
    }
  }

  /** What a run that stops at its first success completes with is an
      accepted text, so never empty nor with white space at either end. */
  lemma CompletedText(answer: nat -> Answer, next: nat, run: CascadeRun)
    requires StopsAtFirstSuccess(Verdicts(answer), next, run) && run.result.Completed?
    ensures run.result.text != [] && IsTrimmed(run.result.text)
  {
    assert Verdicts(answer)(next + run.used - 1) == Classify(answer(next + run.used - 1));
  }

  /** `Cascade` returns the first acceptable answer, and its text is never
      empty nor has white space at either end. */
  lemma CascadeFirstSuccess(answer: nat -> Answer, options: ChatOptions, next: nat, models: seq<string>)
    ensures var run := RunCascade(ModelTurns(answer, options), next, models);
      && StopsAtFirstSuccess(Verdicts(answer), next, run)
      && (run.result.Completed? ==> run.result.text != [] && IsTrimmed(run.result.text))
  {
    var turns := ModelTurns(answer, options);
    ModelTurnsOutcome(answer, options);
    CascadeStopsAtFirstSuccess(Verdicts(answer), turns, next, models);
    var run := RunCascade(turns, next, models);
    if run.result.Completed? {
      CompletedText(answer, next, run);
    }
  }

  /** A turn that meets only retryable answers returns nothing after using
      all its attempts. */
  lemma RetriedTurn(verdict: nat -> Disposition, n: nat, t: ModelRun)
    requires TurnOutcome(verdict, n, t)
    requires forall j :: n <= j ==> verdict(j) == Retry
    ensures t.result.None? && t.used == RetriesPerModel
  {
    assert verdict(n + t.used - 1) == Retry;
  }

  /** When every answer is retryable (429, 5xx, thrown, blank), the cascade is
      exhausted after `|models| * R` calls. */
  lemma {:induction false} AllRetryableExhausts(verdict: nat -> Disposition, turns: Turns, next: nat, models: seq<string>)
    requires TurnOutcomes(verdict, turns)
    requires forall j :: next <= j ==> verdict(j) == Retry
    ensures var run := RunCascade(turns, next, models);
      run.result == Exhausted && run.used == |models| * RetriesPerModel
    decreases |models|
  {
    var run := RunCascade(turns, next, models);
    if models != [] {
      var turn := turns(next, models[0]);
      RetriedTurn(verdict, next, turn);
      var rest := RunCascade(turns, next + turn.used, models[1..]);
      AllRetryableExhausts(verdict, turns, next + turn.used, models[1..]);
      MulStep(|models| - 1);
      assert run == CascadeRun(rest.result, turn.events + rest.events, turn.used + rest.used);
    }
  }

  /** Every one of `models` received exactly `RetriesPerModel` requests. */
  ghost predicate CallsEachFully(reqs: seq<RequestBody>, models: seq<string>) {
    forall m :: m in models ==> CountFor(reqs, m) == RetriesPerModel
  }

  lemma CallsEachFullyCons(models: seq<string>, options: ChatOptions, mine: seq<RequestBody>, theirs: seq<RequestBody>)
    requires Distinct(models) && models != []
    requires |mine| == RetriesPerModel
    requires forall i :: 0 <= i < |mine| ==> mine[i] == BuildRequestBody(models[0], options)
    requires BodiesFor(theirs, models[1..], options) && CallsEachFully(theirs, models[1..])
    ensures CallsEachFully(mine + theirs, models)
  {
    forall m | m in models
      ensures CountFor(mine + theirs, m) == RetriesPerModel
    {
      CountForAppend(mine, theirs, m);
      if m == models[0] {
        forall i | 0 <= i < |theirs|
          ensures theirs[i].model != m
        {
          IndexOfTail(models, theirs[i].model);
        }
        CountForAll(mine, m);
        CountForAbsent(theirs, m);
      } else {
        assert m in models[1..];
        CountForAbsent(mine, m);
      }
    }
  }

  /** When every answer is retryable and no model is listed twice, each model
      receives both of its attempts. */
  lemma {:induction false} AllRetryableCallsEachFully(verdict: nat -> Disposition, turns: Turns, options: ChatOptions, next: nat, models: seq<string>)
    requires TurnOutcomes(verdict, turns) && ShapedTurns(turns, options) && Distinct(models)
    requires forall j :: next <= j ==> verdict(j) == Retry
    ensures CallsEachFully(Requests(RunCascade(turns, next, models).events), models)
    decreases |models|
  {
    var run := RunCascade(turns, next, models);
    if models != [] {
      var turn := turns(next, models[0]);
      assert IsTurnOf(models[0], options, turn);
      RetriedTurn(verdict, next, turn);
      var rest := RunCascade(turns, next + turn.used, models[1..]);
      DistinctTail(models);
      AllRetryableCallsEachFully(verdict, turns, options, next + turn.used, models[1..]);
      CascadeBodies(turns, options, next + turn.used, models[1..]);
      TurnLog(models[0], options, turn);
      CallsEachFullyCons(models, options, Requests(turn.events), Requests(rest.events));
      RequestsAppend(turn.events, rest.events);
      assert run.events == turn.events + rest.events;
    }
  }

  /** Every model replying with empty content: `chatCompletion` is exhausted
      after ten calls, two to each free model. */
  lemma EmptyRepliesExhaust(options: ChatOptions)
    ensures var answer: nat -> Answer := _ => Reply(200, Body(Some("")));
      var run := RunCascade(ModelTurns(answer, options), 0, FreeModels);
      run.result.Exhausted? && run.used == 10 && CallsEachFully(Requests(run.events), FreeModels)
  {
    var answer: nat -> Answer := _ => Reply(200, Body(Some("")));
    assert Trim("") == [];
    assert forall j: nat :: 0 <= j ==> Verdicts(answer)(j) == Retry;
    ModelTurnsOutcome(answer, options);
    ModelTurnsShaped(answer, options);
    FreeModelsDistinct();
    AllRetryableExhausts(Verdicts(answer), ModelTurns(answer, options), 0, FreeModels);
    AllRetryableCallsEachFully(Verdicts(answer), ModelTurns(answer, options), options, 0, FreeModels);
  }

  /** Every request goes to one of `models`, with the body built from the
      caller's options for that model. */
  ghost predicate BodiesFor(reqs: seq<RequestBody>, models: seq<string>, options: ChatOptions) {
    forall i :: 0 <= i < |reqs| ==> reqs[i].model in models && reqs[i] == BuildRequestBody(reqs[i].model, options)
  }

  lemma BodiesForCons(models: seq<string>, options: ChatOptions, mine: seq<RequestBody>, theirs: seq<RequestBody>)
    requires models != []
    requires forall i :: 0 <= i < |mine| ==> mine[i] == BuildRequestBody(models[0], options)
    requires BodiesFor(theirs, models[1..], options)
    ensures BodiesFor(mine + theirs, models, options)
  {
    var reqs := mine + theirs;
    forall i | 0 <= i < |reqs|
      ensures reqs[i].model in models && reqs[i] == BuildRequestBody(reqs[i].model, options)
    {
      if i < |mine| {
        assert reqs[i] == mine[i];
      } else {
        assert reqs[i] == theirs[i - |mine|];
        assert theirs[i - |mine|].model in models[1..];
      }
    }
  }

  lemma BodiesForHead(models: seq<string>, options: ChatOptions, t: ModelRun)
    requires models != [] && IsTurnOf(models[0], options, t)
    ensures BodiesFor(Requests(t.events), models, options)
  {
    TurnLog(models[0], options, t);
    BodiesForCons(models, options, Requests(t.events), []);
    assert Requests(t.events) + [] == Requests(t.events);
  }

  lemma BodiesForTurnCons(models: seq<string>, options: ChatOptions, t: ModelRun, rest: CascadeRun)
    requires models != [] && IsTurnOf(models[0], options, t)
    requires BodiesFor(Requests(rest.events), models[1..], options)
    ensures BodiesFor(Requests(t.events + rest.events), models, options)
  {
    TurnLog(models[0], options, t);
    BodiesForCons(models, options, Requests(t.events), Requests(rest.events));
    RequestsAppend(t.events, rest.events);
  }

  lemma {:induction false} CascadeBodies(turns: Turns, options: ChatOptions, next: nat, models: seq<string>)
    requires ShapedTurns(turns, options)
    ensures BodiesFor(Requests(RunCascade(turns, next, models).events), models, options)
    decreases |models|
  {
    var run := RunCascade(turns, next, models);
    if models == [] {
      assert run.events == [] && Requests([]) == [];
    } else {
      var turn := turns(next, models[0]);
      assert IsTurnOf(models[0], options, turn);
      if turn.result.None? {
        var rest := RunCascade(turns, next + turn.used, models[1..]);
        CascadeBodies(turns, options, next + turn.used, models[1..]);
        BodiesForTurnCons(models, options, turn, rest);
        assert run.events == turn.events + rest.events;
      } else {
        BodiesForHead(models, options, turn);
        assert run.events == turn.events;
      }
    }
  }

  /** Where a model that is not the head of a list of distinct models sits in
      the list. */
  lemma IndexOfTail(models: seq<string>, m: string)
    requires Distinct(models) && models != [] && m in models[1..]
    ensures m != models[0] && IndexOf(models, m) == 1 + IndexOf(models[1..], m)
  {
    var k := IndexOf(models[1..], m);
    IndexOfFound(models[1..], m);
    assert models[1..][k] == models[k + 1];
    DistinctAt(models, 0, k + 1);
  }

  /** A request never goes to a model listed before the model of an earlier
      request. */
  ghost predicate InOrder(reqs: seq<RequestBody>, models: seq<string>) {
    forall i, j :: 0 <= i < j < |reqs| ==> IndexOf(models, reqs[i].model) <= IndexOf(models, reqs[j].model)
  }

  /** The rank of the model of request `i`. */
  function RequestRank(reqs: seq<RequestBody>, rank: string -> nat, i: nat): nat
    requires i < |reqs|
  {
    rank(reqs[i].model)
  }

  /** The rank of the `i`-th listed model. */
  function ListRank(models: seq<string>, rank: string -> nat, i: nat): nat
    requires i < |models|
  {
    rank(models[i])
  }

  /** The requests go to models of non-decreasing `rank`. */
  ghost predicate RankedInOrder(reqs: seq<RequestBody>, rank: string -> nat) {
    forall i, j :: 0 <= i < j < |reqs| ==> RequestRank(reqs, rank, i) <= RequestRank(reqs, rank, j)
  }

  /** The models are listed by non-decreasing `rank`. */
  ghost predicate RankSorted(models: seq<string>, rank: string -> nat) {
    forall i, j :: 0 <= i < j < |models| ==> ListRank(models, rank, i) <= ListRank(models, rank, j)
  }

  /** The models after the head are still listed by rank. */
  lemma RankSortedTail(models: seq<string>, rank: string -> nat)
    requires models != [] && RankSorted(models, rank)
    ensures RankSorted(models[1..], rank)
  {
    var tail := models[1..];
    forall i, j | 0 <= i < j < |tail|
      ensures ListRank(tail, rank, i) <= ListRank(tail, rank, j)
    {
      assert tail[i] == models[i + 1] && tail[j] == models[j + 1];
      assert ListRank(models, rank, i + 1) <= ListRank(models, rank, j + 1);
    }
  }

  /** A model listed after the head ranks no lower than the head. */
  lemma RankAfterHead(models: seq<string>, rank: string -> nat, m: string)
    requires models != [] && RankSorted(models, rank) && m in models[1..]
    ensures rank(models[0]) <= rank(m)
  {
    var p :| 0 <= p < |models| - 1 && models[1..][p] == m;
    assert models[p + 1] == m;
    assert ListRank(models, rank, 0) <= ListRank(models, rank, p + 1);
  }

  /** The requests of the first model's turn come first, then those of the
      models after it. */
  lemma RankedCons(models: seq<string>, options: ChatOptions, rank: string -> nat, mine: seq<RequestBody>, theirs: seq<RequestBody>)
    requires models != [] && RankSorted(models, rank)
    requires forall i :: 0 <= i < |mine| ==> mine[i] == BuildRequestBody(models[0], options)
    requires BodiesFor(theirs, models[1..], options) && RankedInOrder(theirs, rank)
    ensures RankedInOrder(mine + theirs, rank)
  {
    var reqs := mine + theirs;
    forall i, j | 0 <= i < j < |reqs|
      ensures RequestRank(reqs, rank, i) <= RequestRank(reqs, rank, j)
    {
      var n := |mine|;
      if i >= n {
        assert reqs[i] == theirs[i - n] && reqs[j] == theirs[j - n];
        assert RequestRank(theirs, rank, i - n) <= RequestRank(theirs, rank, j - n);
      } else if j >= n {
        assert reqs[i] == mine[i] && reqs[j] == theirs[j - n];
        RankAfterHead(models, rank, theirs[j - n].model);
      } else {
        assert reqs[i] == mine[i] && reqs[j] == mine[j];
      }
    }
  }

  lemma RankedHead(models: seq<string>, options: ChatOptions, rank: string -> nat, t: ModelRun)
    requires models != [] && RankSorted(models, rank) && IsTurnOf(models[0], options, t)
    ensures RankedInOrder(Requests(t.events), rank)
  {
    TurnLog(models[0], options, t);
    RankedCons(models, options, rank, Requests(t.events), []);
    assert Requests(t.events) + [] == Requests(t.events);
  }

  lemma RankedTurnCons(models: seq<string>, options: ChatOptions, rank: string -> nat, t: ModelRun, rest: CascadeRun)
    requires models != [] && RankSorted(models, rank) && IsTurnOf(models[0], options, t)
    requires BodiesFor(Requests(rest.events), models[1..], options) && RankedInOrder(Requests(rest.events), rank)
    ensures RankedInOrder(Requests(t.events + rest.events), rank)
  {
    TurnLog(models[0], options, t);
    RankedCons(models, options, rank, Requests(t.events), Requests(rest.events));
    RequestsAppend(t.events, rest.events);
  }

  /** When the first model's turn returns nothing, the cascade's log is that
      turn's log followed by the log of the cascade over the other models. */
  lemma CascadeMissEvents(turns: Turns, next: nat, models: seq<string>)
    requires models != [] && turns(next, models[0]).result.None?
    ensures RunCascade(turns, next, models).events
            == turns(next, models[0]).events + RunCascade(turns, next + turns(next, models[0]).used, models[1..]).events
  {
  }

  /** Over models listed by rank, the cascade's requests go to models of
      non-decreasing rank. */
  lemma {:induction false} CascadeRanked(turns: Turns, options: ChatOptions, rank: string -> nat, next: nat, models: seq<string>)
    requires ShapedTurns(turns, options) && RankSorted(models, rank)
    ensures RankedInOrder(Requests(RunCascade(turns, next, models).events), rank)
    decreases |models|
  {
    var run := RunCascade(turns, next, models);
    if models == [] {
      assert run.events == [] && Requests([]) == [];
    } else {
      var turn := turns(next, models[0]);
      assert IsTurnOf(models[0], options, turn);
      if turn.result.None? {
        var rest := RunCascade(turns, next + turn.used, models[1..]);
        CascadeMissEvents(turns, next, models);
        RankSortedTail(models, rank);
        CascadeRanked(turns, options, rank, next + turn.used, models[1..]);
        CascadeBodies(turns, options, next + turn.used, models[1..]);
        RankedTurnCons(models, options, rank, turn, rest);
      } else {
        RankedHead(models, options, rank, turn);
        assert run.events == turn.events;
      }
    }
  }

  /** Models are tried in list order: a request never goes to a model listed
      before the model of an earlier request. */
  lemma CascadeOrder(turns: Turns, options: ChatOptions, next: nat, models: seq<string>)
    requires ShapedTurns(turns, options) && Distinct(models)
    ensures InOrder(Requests(RunCascade(turns, next, models).events), models)
  {
    var rank := (m: string) => IndexOf(models, m);
    forall i, j | 0 <= i < j < |models|
      ensures ListRank(models, rank, i) <= ListRank(models, rank, j)
    {
    }
    CascadeRanked(turns, options, rank, next, models);
    var reqs := Requests(RunCascade(turns, next, models).events);
    forall i, j | 0 <= i < j < |reqs|
      ensures IndexOf(models, reqs[i].model) <= IndexOf(models, reqs[j].model)
    {
      assert RequestRank(reqs, rank, i) <= RequestRank(reqs, rank, j);
    }
  }


  /** No model receives more than `RetriesPerModel` requests. */
  ghost predicate FewPerModel(reqs: seq<RequestBody>) {
    forall m :: CountFor(reqs, m) <= RetriesPerModel
  }

  lemma FewPerModelCons(models: seq<string>, options: ChatOptions, mine: seq<RequestBody>, theirs: seq<RequestBody>)
    requires Distinct(models) && models != []
    requires |mine| <= RetriesPerModel
    requires forall i :: 0 <= i < |mine| ==> mine[i] == BuildRequestBody(models[0], options)
    requires BodiesFor(theirs, models[1..], options) && FewPerModel(theirs)
    ensures FewPerModel(mine + theirs)
  {
    forall m
      ensures CountFor(mine + theirs, m) <= RetriesPerModel
    {
      CountForAppend(mine, theirs, m);
      if m == models[0] {
        forall i | 0 <= i < |theirs|
          ensures theirs[i].model != m
        {
          IndexOfTail(models, theirs[i].model);
        }
        CountForAll(mine, m);
        CountForAbsent(theirs, m);
      } else {
        CountForAbsent(mine, m);
      }
    }
  }

  lemma FewPerModelHead(models: seq<string>, options: ChatOptions, t: ModelRun)
    requires Distinct(models) && models != [] && IsTurnOf(models[0], options, t)
    ensures FewPerModel(Requests(t.events))
  {
    TurnLog(models[0], options, t);
    assert FewPerModel([]) by { assert forall m :: CountFor([], m) == 0; }
    FewPerModelCons(models, options, Requests(t.events), []);
    assert Requests(t.events) + [] == Requests(t.events);
  }

  lemma FewPerModelTurnCons(models: seq<string>, options: ChatOptions, t: ModelRun, rest: CascadeRun)
    requires Distinct(models) && models != [] && IsTurnOf(models[0], options, t)
    requires BodiesFor(Requests(rest.events), models[1..], options) && FewPerModel(Requests(rest.events))
    ensures FewPerModel(Requests(t.events + rest.events))
  {
    TurnLog(models[0], options, t);
    FewPerModelCons(models, options, Requests(t.events), Requests(rest.events));
    RequestsAppend(t.events, rest.events);
  }

  lemma {:induction false} CascadePerModel(turns: Turns, options: ChatOptions, next: nat, models: seq<string>)
    requires ShapedTurns(turns, options) && Distinct(models)
    ensures FewPerModel(Requests(RunCascade(turns, next, models).events))
    decreases |models|
  {
    var run := RunCascade(turns, next, models);
    if models == [] {
      assert run.events == [] && Requests([]) == [];
      assert forall m :: CountFor([], m) == 0;
    } else {
      var turn := turns(next, models[0]);
      assert IsTurnOf(models[0], options, turn);
      if turn.result.None? {
        var rest := RunCascade(turns, next + turn.used, models[1..]);
        DistinctTail(models);
        CascadePerModel(turns, options, next + turn.used, models[1..]);
        CascadeBodies(turns, options, next + turn.used, models[1..]);
        FewPerModelTurnCons(models, options, turn, rest);
        assert run.events == turn.events + rest.events;
      } else {
        FewPerModelHead(models, options, turn);
        assert run.events == turn.events;
      }
    }
  }

  lemma SleepsBetweenAppend(a: seq<Event>, b: seq<Event>)
    requires SleepsBetweenRetries(a) && SleepsBetweenRetries(b)
    ensures SleepsBetweenRetries(a + b)
  {
    var ab := a + b;
    forall i | 0 <= i < |ab| && ab[i].Sleep?
      ensures 0 < i < |ab| - 1 && ab[i - 1].Request? && ab[i + 1].Request?
      ensures ab[i - 1].body == ab[i + 1].body && ab[i].ms == BaseDelayMs
    {
      if i < |a| {
        assert ab[i] == a[i] && ab[i - 1] == a[i - 1] && ab[i + 1] == a[i + 1];
      } else {
        var k := i - |a|;
        assert ab[i] == b[k] && ab[i - 1] == b[k - 1] && ab[i + 1] == b[k + 1];
      }
    }
  }

  lemma SleepsTurnCons(model: string, options: ChatOptions, t: ModelRun, rest: seq<Event>)
    requires IsTurnOf(model, options, t) && SleepsBetweenRetries(rest)
    ensures SleepsBetweenRetries(t.events + rest)
  {
    TurnLog(model, options, t);
    SleepsBetweenAppend(t.events, rest);
  }

  /** The client sleeps only between two attempts on the same model, and then
      always for `BaseDelayMs`: never before a model's first attempt, never
      between models. */
  lemma {:induction false} CascadeSleeps(turns: Turns, options: ChatOptions, next: nat, models: seq<string>)
    requires ShapedTurns(turns, options)
    ensures SleepsBetweenRetries(RunCascade(turns, next, models).events)
    decreases |models|
  {
    var run := RunCascade(turns, next, models);
    if models == [] {
      assert run.events == [];
    } else {
      var turn := turns(next, models[0]);
      assert IsTurnOf(models[0], options, turn);
      if turn.result.None? {
        var rest := RunCascade(turns, next + turn.used, models[1..]);
        CascadeSleeps(turns, options, next + turn.used, models[1..]);
        SleepsTurnCons(models[0], options, turn, rest.events);
        assert run.events == turn.events + rest.events;
      } else {
        SleepsTurnCons(models[0], options, turn, []);
        assert turn.events + [] == turn.events;
        assert run.events == turn.events;
      }
    }
  }

  /** A list whose entries differ pairwise is `Distinct`. */
  lemma {:induction false} DistinctWhenPairwise(models: seq<string>)
    requires forall i, j :: 0 <= i < j < |models| ==> models[i] != models[j]
    ensures Distinct(models)
    decreases |models|
  {
    if models != [] {
      var tail := models[1..];
      DistinctWhenPairwise(tail);
      forall i | 0 <= i < |models|
        ensures IndexOf(models, models[i]) == i
      {
        if i > 0 {
          assert models[i] == tail[i - 1];
        }
      }
    }
  }

  /** The five free models are pairwise distinct. */
  lemma FreeModelsDistinct()
    ensures Distinct(FreeModels)
  {
    var m := FreeModels;
    assert m[0][0] == 'g' && m[1][0] == 'g' && m[2][0] == 'a' && m[3][0] == 'm' && m[4][0] == 'm';
    assert m[0][14] == '-' && m[1][14] == 'n';
    assert m[3][1] == 'e' && m[4][1] == 'i';
    DistinctWhenPairwise(m);
  }

  /** `chatCompletion` calls the free models in their listed order and none
      more than `RETRIES_PER_MODEL` times. */
  lemma ChatCompletionOrder(answer: nat -> Answer, options: ChatOptions, next: nat)
    ensures var reqs := Requests(RunCascade(ModelTurns(answer, options), next, FreeModels).events);
      InOrder(reqs, FreeModels) && FewPerModel(reqs)
  {
    FreeModelsDistinct();
    ModelTurnsShaped(answer, options);
    CascadeOrder(ModelTurns(answer, options), options, next, FreeModels);
    CascadePerModel(ModelTurns(answer, options), options, next, FreeModels);
  }

  /** The upstream of the scenario below: two 500s, a 401, then a reply. */
  function ScenarioAnswer(j: nat): Answer {
    if j < 2 then Reply(500, Body(None))
    else if j == 2 then Reply(401, Body(None))
    else Reply(200, Body(Some("Fine.")))
  }

  /** Two retried answers in a row use up a model's turn. */
  lemma TwoRetries(answer: nat -> Answer, next: nat, model: string, options: ChatOptions)
    requires Classify(answer(next)) == Retry && Classify(answer(next + 1)) == Retry
    ensures var b := BuildRequestBody(model, options);
      RunModel(answer, next, model, options, 0) == ModelRun(None, [Request(b), Sleep(2000), Request(b)], 2)
  {
    var b := BuildRequestBody(model, options);
    assert RunModel(answer, next + 1, model, options, 1) == ModelRun(None, [Sleep(2000), Request(b)] + [], 1 + 0);
  }

  /** An accepted first answer ends a model's turn with its text. */
  lemma AcceptFirst(answer: nat -> Answer, next: nat, model: string, options: ChatOptions, text: string)
    requires Classify(answer(next)) == Accept(text)
    ensures RunModel(answer, next, model, options, 0) == ModelRun(Some(text), [Request(BuildRequestBody(model, options))], 1)
  {
  }

  /** The turns of the scenario below, one model at a time. */
  lemma ScenarioTurns(models: seq<string>, options: ChatOptions)
    requires |models| >= 3
    ensures var turns := ModelTurns(ScenarioAnswer, options);
      var b0, b1, b2 := BuildRequestBody(models[0], options), BuildRequestBody(models[1], options),
                        BuildRequestBody(models[2], options);
      && turns(0, models[0]) == ModelRun(None, [Request(b0), Sleep(2000), Request(b0)], 2)
      && turns(2, models[1]) == ModelRun(None, [Request(b1)], 1)
      && turns(3, models[2]) == ModelRun(Some("Fine."), [Request(b2)], 1)
  {
    TrimOfTrimmed("Fine.");
    assert Classify(ScenarioAnswer(0)) == Retry && Classify(ScenarioAnswer(1)) == Retry;
    TwoRetries(ScenarioAnswer, 0, models[0], options);
    AbandonCostsOneCall(ScenarioAnswer, 2, models[1], options);
    assert Classify(ScenarioAnswer(3)) == Accept("Fine.");
    AcceptFirst(ScenarioAnswer, 3, models[2], options, "Fine.");
  }

  /** A cascade whose first two models return nothing after two and one
      calls, and whose third returns a text on its first call. */
  lemma ThirdModelAnswers(turns: Turns, models: seq<string>, e0: seq<Event>, e1: seq<Event>, e2: seq<Event>, text: string)
    requires |models| >= 3
    requires turns(0, models[0]) == ModelRun(None, e0, 2)
    requires turns(2, models[1]) == ModelRun(None, e1, 1)
    requires turns(3, models[2]) == ModelRun(Some(text), e2, 1)
    ensures RunCascade(turns, 0, models) == CascadeRun(Completed(text), e0 + e1 + e2, 4)
  {
    var ms1 := models[1..];
    var ms2 := ms1[1..];
    assert ms1[0] == models[1] && ms2[0] == models[2];
    assert RunCascade(turns, 3, ms2) == CascadeRun(Completed(text), e2, 1);
    assert RunCascade(turns, 2, ms1) == CascadeRun(Completed(text), e1 + e2, 2);
    AppendAssoc(e0, e1, e2);
  }

  /** Two 500s from the first model, a 401 from the second and a reply from the
      third: four calls, one 2000 ms sleep, and the third model's text. */
  lemma FourCallScenario(models: seq<string>, options: ChatOptions)
    requires |models| >= 3
    ensures var run := RunCascade(ModelTurns(ScenarioAnswer, options), 0, models);
      var b0, b1, b2 := BuildRequestBody(models[0], options), BuildRequestBody(models[1], options),
                        BuildRequestBody(models[2], options);
      && run.result == Completed("Fine.")
      && run.used == 4
      && run.events == [Request(b0), Sleep(2000), Request(b0), Request(b1), Request(b2)]
  {
    var b0 := BuildRequestBody(models[0], options);
    var b1 := BuildRequestBody(models[1], options);
    var b2 := BuildRequestBody(models[2], options);
    var e0, e1, e2 := [Request(b0), Sleep(2000), Request(b0)], [Request(b1)], [Request(b2)];
    ScenarioTurns(models, options);
    ThirdModelAnswers(ModelTurns(ScenarioAnswer, options), models, e0, e1, e2, "Fine.");
    assert e0 + e1 + e2 == [Request(b0), Sleep(2000), Request(b0), Request(b1), Request(b2)];
  }
}
