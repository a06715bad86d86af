/** The chat backend's reply generation: it checks that an API key is set, builds the
    ordered list of candidate models from configuration, loads the resume, builds the
    system prompt, and then asks each candidate model in turn until one answers,
    skipping models that are unavailable and failing at once on any other error.

    Environment variables, the resume file and the HTTP responses are inputs: `Env`
    holds the three variables the logic reads, the resume is its content (`None` when
    the file does not exist), and `respond` gives the outcome of posting a request. */
module ChatService {
  import opened Wrappers
  import opened Text

  const IDontKnow := "I don't know."
  const DefaultModel := "openrouter/free"
  const MissingKeyMessage := "OPENROUTER_API_KEY is not configured"
  const ResumeNotFoundPrefix := "Resume file not found at "
  const ResumeEmptyMessage := "Resume file is empty"
  const InitialError := "OpenRouter request failed"
  /** "OpenRouter request failed with status " (written as two literals, split after its
      only `n`, for the proof that it never holds "no endpoints found"). */
  const StatusFailurePrefix := "OpenR" + "outer request failed with status "
  const RequestFailurePrefix := "OpenRouter request failed: "
  const FormatErrorMessage := "Unexpected OpenRouter response format"
  const ExhaustedHint := ". Configure OPENROUTER_MODEL or OPENROUTER_FALLBACK_MODELS with available models."
  const NoEndpointsFound := "no endpoints found"
  /** Statuses that mean "this model is unavailable, try the next one". */
  const RetryStatuses: set<nat> := {404, 429, 503}

  const PromptPreamble :=
    "You are the candidate's portfolio AI assistant. "
    + "Answer questions using only the resume/portfolio facts below. "
    + "If the answer is not explicitly supported by the provided content, reply exactly: "
    + "\"I don't know.\" "
    + "Do not guess, invent, or hallucinate. "
    + "Keep responses concise, professional, and recruiter-friendly.\n\n"
    + "Candidate Resume and Portfolio Facts:\n"

  /** OPENROUTER_API_KEY, OPENROUTER_MODEL and OPENROUTER_FALLBACK_MODELS (`None` when unset). */
  datatype Env = Env(apiKey: Option<string>, model: Option<string>, fallbackModels: Option<string>)

  /** What `generate_chat_reply` does in the end: return a reply, raise `ChatServiceError`
      with a message, or let another exception escape. */
  datatype ServiceResult = Reply(text: string) | ServiceError(message: string) | OtherException

  /** The body of a response whose status is OK. */
  datatype SuccessBody =
    | Completion(content: string)   // choices[0].message.content is a string
    | MissingCompletion             // that path is missing or mistyped: KeyError, IndexError or TypeError
    | NonTextContent                // the content is not a string: `.strip()` raises AttributeError
    | NotJson(description: string)  // `response.json()` raises requests' JSONDecodeError

  /** The outcome of posting one request. */
  datatype Outcome =
    | Ok(body: SuccessBody)
      /** A non-OK status; `apiMessage` is `str(error.message)` when the body is a JSON object
          whose `error` is an object with a truthy `message`, and `None` otherwise. */
    | NotOk(status: nat, apiMessage: Option<string>)
      /** `requests.post` raised a RequestException (connection error, timeout, ...). */
    | RequestFailed(description: string)

  /** The parts of the chat-completion payload the logic decides: the model, the system
      prompt and the user's content. */
  datatype Request = Request(model: string, systemPrompt: string, userContent: string)

  /** The effect of one outcome on the loop: go on to the next model, having recorded
      an error, or stop with a result. */
  datatype Step = Next(error: string) | Stop(result: ServiceResult)

  predicate HasApiKey(env: Env) {
    env.apiKey.Some? && env.apiKey.value != ""
  }

  /** The resume content, stripped; missing and blank files are errors. */
  function LoadResumeText(content: Option<string>, path: string): (r: Result<string, string>)
    ensures r.Success? <==> content.Some? && !AllWhitespace(content.value, Python)
    ensures r.Success? ==> r.value != "" && r.value == Trim(content.value, Python)
    ensures content.None? ==> r == Failure(ResumeNotFoundPrefix + path)
    ensures content.Some? && r.Failure? ==> r.error == ResumeEmptyMessage
  {
    match content
    case None => Failure(ResumeNotFoundPrefix + path)
    case Some(text) =>
      var stripped := Trim(text, Python);
      if stripped == "" then Failure(ResumeEmptyMessage) else Success(stripped)
  }

  /** The fixed instructions followed by the resume text, unchanged. */
  function BuildSystemPrompt(resume: string): (prompt: string)
    ensures |prompt| == |PromptPreamble| + |resume|
    ensures prompt[..|PromptPreamble|] == PromptPreamble && prompt[|PromptPreamble|..] == resume
  {
    PromptPreamble + resume
  }

  /** The message recorded for a non-OK status: the API's own message when it gave one,
      otherwise one naming the status. */
  function ErrorMessage(status: nat, apiMessage: Option<string>): string {
    if apiMessage.Some? && apiMessage.value != "" then apiMessage.value
    else StatusFailurePrefix + NatToString(status)
  }

  /** Whether a non-OK response means the model is unavailable. */
  predicate Retryable(status: nat, message: string) {
    Contains(Lower(message), NoEndpointsFound) || status in RetryStatuses
  }

  /** The body of the source's `try` for one response: record the error and move on,
      raise, or return the reply. */
  function Classify(outcome: Outcome): Step
  {
    match outcome
    case RequestFailed(description) => Next(RequestFailurePrefix + description)
    case NotOk(status, apiMessage) =>
      var message := ErrorMessage(status, apiMessage);
      if Retryable(status, message) then Next(message) else Stop(ServiceError(message))
    case Ok(body) =>
      match body
      case NotJson(description) => Next(RequestFailurePrefix + description)
      case MissingCompletion => Stop(ServiceError(FormatErrorMessage))
      case NonTextContent => Stop(OtherException)
      case Completion(content) =>
        var reply := Trim(content, Python);
        Stop(Reply(if reply == "" then IDontKnow else reply))
  }

  /** What each outcome does to the loop. It moves on exactly after a failed request, an
      OK body that is not JSON, or an unavailable model, recording the error; it raises the
      recorded message of any other non-OK response, raises the format error for a
      malformed completion, lets the exception of non-text content escape, and otherwise
      returns a non-empty, stripped reply: the completion's strip, or the fallback answer
      when that is empty. */
  lemma ClassifySteps(outcome: Outcome)
    ensures var step := Classify(outcome);
      (step.Next? <==>
         outcome.RequestFailed? || (outcome.Ok? && outcome.body.NotJson?)
         || (outcome.NotOk? && Retryable(outcome.status, ErrorMessage(outcome.status, outcome.apiMessage))))
      && (outcome.RequestFailed? ==> step.error == RequestFailurePrefix + outcome.description)
      && (outcome.Ok? && outcome.body.NotJson? ==> step.error == RequestFailurePrefix + outcome.body.description)
      && (outcome.NotOk? ==>
            step == Next(ErrorMessage(outcome.status, outcome.apiMessage))
            || step == Stop(ServiceError(ErrorMessage(outcome.status, outcome.apiMessage))))
      && (outcome == Ok(MissingCompletion) ==> step == Stop(ServiceError(FormatErrorMessage)))
      && (step == Stop(OtherException) <==> outcome == Ok(NonTextContent))
      && (step.Stop? && step.result.Reply? <==> outcome.Ok? && outcome.body.Completion?)
      && (step.Stop? && step.result.Reply? ==>
            step.result.text != "" && IsTrimmed(step.result.text, Python)
            && (step.result.text == Trim(outcome.body.content, Python)
                || (AllWhitespace(outcome.body.content, Python) && step.result.text == IDontKnow)))
  {
    IDontKnowIsTrimmed();
  }

  /** The non-empty names of `xs` in first-seen order, each once: the list the source
      builds by appending each candidate that is non-empty and not yet present. */
  function UniqueNonEmpty(xs: seq<string>): (r: seq<string>)
    ensures forall i, j :: 0 <= i < j < |r| ==> r[i] != r[j]
    ensures forall x :: x in r <==> x in xs && x != ""
  {
    if xs == [] then []
    else
      var r := UniqueNonEmpty(xs[..|xs| - 1]);
      var last := xs[|xs| - 1];
      assert xs == xs[..|xs| - 1] + [last];
      if last != "" && last !in r then r + [last] else r
  }

  /** The position of the first occurrence of `x` in `xs`. */
  function IndexOf(xs: seq<string>, x: string): (k: nat)
    requires x in xs
    ensures k < |xs| && xs[k] == x && forall j :: 0 <= j < k ==> xs[j] != x
  {
    if xs[0] == x then 0 else 1 + IndexOf(xs[1..], x)
  }

  lemma {:induction false} IndexOfPrefix(xs: seq<string>, y: string, x: string)
    requires x in xs
    ensures IndexOf(xs + [y], x) == IndexOf(xs, x)
  {
    if xs[0] != x {
      assert (xs + [y])[1..] == xs[1..] + [y];
      IndexOfPrefix(xs[1..], y, x);
    }
  }

  /** The names keep the order of their first occurrence in the input. */
  lemma {:induction false} UniqueNonEmptyOrder(xs: seq<string>)
    ensures forall i, j :: 0 <= i < j < |UniqueNonEmpty(xs)| ==>
              IndexOf(xs, UniqueNonEmpty(xs)[i]) < IndexOf(xs, UniqueNonEmpty(xs)[j])
  {
    if xs != [] {
      var init := xs[..|xs| - 1];
      var last := xs[|xs| - 1];
      assert xs == init + [last];
      UniqueNonEmptyOrder(init);
      var p := UniqueNonEmpty(init);
      var r := UniqueNonEmpty(xs);
      forall x | x in p ensures IndexOf(xs, x) == IndexOf(init, x) {
        IndexOfPrefix(init, last, x);
      }
      if last != "" && last !in p {
        assert last !in init;
        assert IndexOf(xs, last) == |init|;
        forall i, j | 0 <= i < j < |r| ensures IndexOf(xs, r[i]) < IndexOf(xs, r[j]) {
          assert r[i] == p[i] && r[i] in p;
          if j == |p| {
            assert r[j] == last;
            assert IndexOf(init, r[i]) < |init|;
          } else {
            assert r[j] == p[j] && r[j] in p;
          }
        }
      } else {
        assert r == p;
        forall i, j | 0 <= i < j < |r| ensures IndexOf(xs, r[i]) < IndexOf(xs, r[j]) {
          assert IndexOf(init, p[i]) < IndexOf(init, p[j]);
          IndexOfPrefix(init, last, p[i]);
          IndexOfPrefix(init, last, p[j]);
        }
      }
    }
  }

  /** The first non-empty name comes first. */
  lemma UniqueNonEmptyHead(xs: seq<string>)
    requires xs != [] && xs[0] != ""
    ensures var r := UniqueNonEmpty(xs); r != [] && r[0] == xs[0]
  {
    var r := UniqueNonEmpty(xs);
    assert xs[0] in r;
    UniqueNonEmptyOrder(xs);
  }

  function ConfiguredModel(env: Env): string {
    env.model.GetOr(DefaultModel)
  }

  function FallbackModels(env: Env): seq<string> {
    CommaList(env.fallbackModels.GetOr(DefaultModel))
  }

  /** The candidate models, in the order they are tried. */
  function Candidates(env: Env): seq<string> {
    UniqueNonEmpty([ConfiguredModel(env)] + FallbackModels(env))
  }

  /** The candidate list has no duplicates and no empty names, holds exactly the
      configured model (when non-empty) and the fallback entries, in first-seen order,
      and starts with the configured model when that is non-empty. */
  lemma CandidatesShape(env: Env)
    ensures var c := Candidates(env);
      (forall i, j :: 0 <= i < j < |c| ==> c[i] != c[j])
      && (forall m :: m in c <==> (m == ConfiguredModel(env) && m != "") || m in FallbackModels(env))
      && (ConfiguredModel(env) != "" ==> c[0] == ConfiguredModel(env))
      && (forall i, j :: 0 <= i < j < |c| ==>
            IndexOf([ConfiguredModel(env)] + FallbackModels(env), c[i])
            < IndexOf([ConfiguredModel(env)] + FallbackModels(env), c[j]))
  {
    var xs := [ConfiguredModel(env)] + FallbackModels(env);
    UniqueNonEmptyOrder(xs);
    if ConfiguredModel(env) != "" {
      UniqueNonEmptyHead(xs);
    }
  }

  /** With neither model variable set, the only candidate is the default model. */
  lemma CandidatesDefault(key: Option<string>)
    ensures Candidates(Env(key, None, None)) == [DefaultModel]
  {
    var env := Env(key, None, None);
    DefaultFallbackModels(env);
    CandidatesOfOneModel(env, DefaultModel);
  }

  lemma CandidatesOfOneModel(env: Env, x: string)
    requires x != "" && ConfiguredModel(env) == x && FallbackModels(env) == [x]
    ensures Candidates(env) == [x]
  {
    var all := [ConfiguredModel(env)] + FallbackModels(env);
    assert all == [x, x];
    UniqueNonEmptyTwice(x);
    assert Candidates(env) == UniqueNonEmpty(all);
  }

  lemma UniqueNonEmptyTwice(x: string)
    requires x != ""
    ensures UniqueNonEmpty([x, x]) == [x]
  {
    var xs := [x, x];
    assert UniqueNonEmpty(xs[..1]) == [x] by {
      assert xs[..1][..0] == [];
    }
    assert xs[..|xs| - 1] == xs[..1];
  }

  lemma DefaultFallbackModels(env: Env)
    requires env.fallbackModels.None?
    ensures FallbackModels(env) == [DefaultModel]
  {
    var d := DefaultModel;
    assert ',' !in d;
    assert IsTrimmed(d, Python) by {
      assert d[0] == 'o' && d[|d| - 1] == 'e';
    }
    assert !AllWhitespace(d, Python) by {
      assert !IsSpace(d[0], Python);
    }
    CommaListSingle(d);
  }

  /** Tries `models` in order, with `lastError` the error recorded so far; gives the
      result and the requests made. */
  function Fallback(models: seq<string>, prompt: string, user: string,
                    respond: Request -> Outcome, lastError: string): (ServiceResult, seq<Request>)
    decreases |models|
  {
    if models == [] then (ServiceError(lastError + ExhaustedHint), [])
    else
      var request := Request(models[0], prompt, user);
      match Classify(respond(request))
      case Next(error) =>
        var (result, requests) := Fallback(models[1..], prompt, user, respond, error);
        (result, [request] + requests)
      case Stop(result) => (result, [request])
  }

  lemma FallbackUnfold(models: seq<string>, prompt: string, user: string,
                        respond: Request -> Outcome, lastError: string)
    requires models != []
    ensures var request := Request(models[0], prompt, user);
      var step := Classify(respond(request));
      Fallback(models, prompt, user, respond, lastError)
      == if step.Next? then
           (Fallback(models[1..], prompt, user, respond, step.error).0,
            [request] + Fallback(models[1..], prompt, user, respond, step.error).1)
         else (step.result, [request])
  {
  }

  /** What `generate_chat_reply(message)` returns or raises, and the requests it makes. */
  function ChatReply(message: string, env: Env, resume: Option<string>, resumePath: string,
                     respond: Request -> Outcome): (ServiceResult, seq<Request>)
  {
    if !HasApiKey(env) then (ServiceError(MissingKeyMessage), [])
    else
      match LoadResumeText(resume, resumePath)
      case Failure(error) => (ServiceError(error), [])
      case Success(text) =>
        Fallback(Candidates(env), BuildSystemPrompt(text), Trim(message, Python), respond, InitialError)
  }

  /** The fallback answer is a non-empty stripped string. */
  lemma IDontKnowIsTrimmed()
    ensures IDontKnow != "" && IsTrimmed(IDontKnow, Python)
  {
    assert IsTrimmed(IDontKnow, Python);
  }

  /** The requests go to a prefix of the models, one each, in order, and every request but
      the last was answered with an outcome that moves on to the next model. */
  lemma {:induction false} FallbackRequests(models: seq<string>, prompt: string, user: string,
                                            respond: Request -> Outcome, lastError: string)
    ensures var requests := Fallback(models, prompt, user, respond, lastError).1;
      |requests| <= |models|
      && (forall k :: 0 <= k < |requests| ==> requests[k] == Request(models[k], prompt, user))
      && (forall k :: 0 <= k < |requests| - 1 ==> Classify(respond(requests[k])).Next?)
    decreases |models|
  {
    if models != [] {
      var step := Classify(respond(Request(models[0], prompt, user)));
      if step.Next? {
        FallbackRequests(models[1..], prompt, user, respond, step.error);
      }
    }
  }

  /** The loop stops at the first outcome that does not move on, with that outcome's
      result; when every request moved on, all models were tried and the error is the
      last recorded one (or `lastError` when there were no models) with the hint. */
  lemma {:induction false} FallbackResult(models: seq<string>, prompt: string, user: string,
                                          respond: Request -> Outcome, lastError: string)
    ensures var (result, requests) := Fallback(models, prompt, user, respond, lastError);
      var n := |requests|;
      (n > 0 && Classify(respond(requests[n - 1])).Stop? ==>
         result == Classify(respond(requests[n - 1])).result)
      && (n == 0 || Classify(respond(requests[n - 1])).Next? ==>
           n == |models|
           && result == ServiceError((if n == 0 then lastError else Classify(respond(requests[n - 1])).error)
                                     + ExhaustedHint))
    decreases |models|
  {
    if models != [] {
      var request := Request(models[0], prompt, user);
      var step := Classify(respond(request));
      if step.Next? {
        FallbackResult(models[1..], prompt, user, respond, step.error);
        var rest := Fallback(models[1..], prompt, user, respond, step.error).1;
        assert Fallback(models, prompt, user, respond, lastError).1 == [request] + rest;
        if rest != [] {
          assert ([request] + rest)[|rest|] == rest[|rest| - 1];
        }
      }
    }
  }

  /** A reply is never empty and never padded with whitespace. */
  lemma {:induction false} FallbackReply(models: seq<string>, prompt: string, user: string,
                                         respond: Request -> Outcome, lastError: string)
    ensures var result := Fallback(models, prompt, user, respond, lastError).0;
      result.Reply? ==> result.text != "" && IsTrimmed(result.text, Python)
    decreases |models|
  {
    if models != [] {
      var step := Classify(respond(Request(models[0], prompt, user)));
      if step.Next? {
        FallbackReply(models[1..], prompt, user, respond, step.error);
      } else {
        IDontKnowIsTrimmed();
      }
    }
  }

  /** Without the API's own message, whether a non-OK response moves on depends on the
      status alone: the status message never contains "no endpoints found". */
  lemma StatusDecidesWithoutApiMessage(status: nat, apiMessage: Option<string>)
    requires apiMessage.None? || apiMessage.value == ""
    ensures Classify(NotOk(status, apiMessage)).Next? <==> status in RetryStatuses
    ensures Classify(NotOk(status, apiMessage)).Stop? ==>
              Classify(NotOk(status, apiMessage)).result == ServiceError(StatusFailurePrefix + NatToString(status))
  {
    StatusMessageHasNoNoPair(status);
    NoNoPairExcludes(Lower(StatusFailurePrefix + NatToString(status)), NoEndpointsFound);
  }

  lemma StatusMessageHasNoNoPair(status: nat)
    ensures NoNoPair(Lower(StatusFailurePrefix + NatToString(status)))
  {
    var p := StatusFailurePrefix;
    var d := NatToString(status);
    LowerConcat(p, d);
    LowerDigits(d);
    StatusPrefixHasNoNoPair();
    NoNoPairConcat(Lower(p), d);
  }

  /** The lower-cased status prefix has no "no" and does not end in `n`: its only `n` is
      the one of "OpenRouter", followed by `r`. */
  lemma StatusPrefixHasNoNoPair()
    ensures var l := Lower(StatusFailurePrefix); NoNoPair(l) && l != [] && l[|l| - 1] != 'n'
  {
    var head, tail := "OpenR", "outer request failed with status ";
    OpenRHasNoNoPair(head);
    TailHasNoN(tail);
    LowerJoinHasNoNoPair(head, tail);
  }

  lemma TailHasNoN(tail: string)
    requires tail == "outer request failed with status "
    ensures 'n' !in tail && 'N' !in tail && tail != [] && tail[|tail| - 1] == ' '
  {
  }

  lemma OpenRHasNoNoPair(head: string)
    requires head == "OpenR"
    ensures NoNoPair(Lower(head)) && Lower(head) != [] && Lower(head)[|head| - 1] != 'n'
  {
    var l := Lower(head);
    forall k | 0 <= k < |l| - 1 ensures !(l[k] == 'n' && l[k + 1] == 'o') {
      if k == 3 {
        assert l[k + 1] == LowerChar(head[4]);
      } else {
        assert head[k] != 'n' && head[k] != 'N';
      }
    }
  }

  /** An API message saying "No endpoints found", in any ASCII case, moves on whatever
      the status. */
  lemma NoEndpointsMessageMovesOn(status: nat, message: string)
    requires message != "" && Contains(Lower(message), NoEndpointsFound)
    ensures Classify(NotOk(status, Some(message))) == Next(message)
  {
  }

  /** Without an API key nothing is requested and the key error is raised; with a key
      but no usable resume, nothing is requested and the resume error is raised. */
  lemma ChatReplyPreconditions(message: string, env: Env, resume: Option<string>, resumePath: string,
                               respond: Request -> Outcome)
    ensures var (result, requests) := ChatReply(message, env, resume, resumePath, respond);
      (!HasApiKey(env) ==> result == ServiceError(MissingKeyMessage) && requests == [])
      && (HasApiKey(env) && resume.None? ==>
            result == ServiceError(ResumeNotFoundPrefix + resumePath) && requests == [])
      && (HasApiKey(env) && resume.Some? && AllWhitespace(resume.value, Python) ==>
            result == ServiceError(ResumeEmptyMessage) && requests == [])
  {
  }

  /** When the key and the resume are both present, the service is the fallback loop over
      the candidates with the prompt built from the stripped resume and the stripped message. */
  lemma ChatReplyIsFallback(message: string, env: Env, resume: Option<string>, resumePath: string,
                            respond: Request -> Outcome)
    requires HasApiKey(env) && resume.Some? && !AllWhitespace(resume.value, Python)
    ensures ChatReply(message, env, resume, resumePath, respond)
            == Fallback(Candidates(env), BuildSystemPrompt(Trim(resume.value, Python)),
                        Trim(message, Python), respond, InitialError)
  {
  }

  /** The candidate models are requested in order, at most once each, with the stripped
      message and the prompt built from the stripped resume; every request but the last
      moved on to the next model; a reply is never empty. */
  lemma ChatReplyRequests(message: string, env: Env, resume: Option<string>, resumePath: string,
                          respond: Request -> Outcome)
    ensures var (result, requests) := ChatReply(message, env, resume, resumePath, respond);
      |requests| <= |Candidates(env)|
      && (requests != [] ==> HasApiKey(env) && resume.Some? && !AllWhitespace(resume.value, Python))
      && (forall k :: 0 <= k < |requests| ==>
            requests[k] == Request(Candidates(env)[k], BuildSystemPrompt(Trim(resume.value, Python)),
                                   Trim(message, Python)))
      && (forall k :: 0 <= k < |requests| - 1 ==> Classify(respond(requests[k])).Next?)
      && (result.Reply? ==> result.text != "" && IsTrimmed(result.text, Python))
  {
    if HasApiKey(env) && resume.Some? && !AllWhitespace(resume.value, Python) {
      ChatReplyIsFallback(message, env, resume, resumePath, respond);
      var candidates := Candidates(env);
      var prompt := BuildSystemPrompt(Trim(resume.value, Python));
      var user := Trim(message, Python);
      FallbackRequests(candidates, prompt, user, respond, InitialError);
      FallbackReply(candidates, prompt, user, respond, InitialError);
    }
  }

  /** No model is requested twice. */
  lemma ChatReplyDistinctModels(message: string, env: Env, resume: Option<string>, resumePath: string,
                                respond: Request -> Outcome)
    ensures var requests := ChatReply(message, env, resume, resumePath, respond).1;
      forall i, j :: 0 <= i < j < |requests| ==> requests[i].model != requests[j].model
  {
    var requests := ChatReply(message, env, resume, resumePath, respond).1;
    ChatReplyRequests(message, env, resume, resumePath, respond);
    var candidates := Candidates(env);
    forall i, j | 0 <= i < j < |requests| ensures requests[i].model != requests[j].model {
      assert requests[i].model == candidates[i] && requests[j].model == candidates[j];
    }
  }

  /** The candidate list, built as the source does: the configured model, then each
      fallback entry, appended when non-empty and not already present. */
  method CandidateModels(configured: string, fallbacks: seq<string>) returns (candidates: seq<string>)
    ensures candidates == UniqueNonEmpty([configured] + fallbacks)
  {
    var all := [configured] + fallbacks;
    candidates := [];
    for i := 0 to |all|
      invariant candidates == UniqueNonEmpty(all[..i])
    {
      var candidate := all[i];
      assert all[..i + 1][..i] == all[..i];
      if candidate != "" && candidate !in candidates {
        candidates := candidates + [candidate];
      }
    }
    assert all[..|all|] == all;
  }

  /** The loop of `generate_chat_reply` over the candidate models: each model is asked
      once, in order, until an outcome stops the loop; returns the result and the
      requests made in order. */
  method TryCandidates(candidates: seq<string>, prompt: string, user: string, respond: Request -> Outcome)
    returns (result: ServiceResult, requests: seq<Request>)
    ensures (result, requests) == Fallback(candidates, prompt, user, respond, InitialError)
  {
    requests := [];
    var lastError := InitialError;
    ghost var whole := Fallback(candidates, prompt, user, respond, InitialError);
    var i := 0;
    while i < |candidates|
      invariant 0 <= i <= |candidates|
      invariant whole.0 == Fallback(candidates[i..], prompt, user, respond, lastError).0
      invariant whole.1 == requests + Fallback(candidates[i..], prompt, user, respond, lastError).1
    {
      var request := Request(candidates[i], prompt, user);
      assert candidates[i..][0] == candidates[i] && candidates[i..][1..] == candidates[i + 1..];
      FallbackUnfold(candidates[i..], prompt, user, respond, lastError);
      ghost var before := requests;
      requests := requests + [request];
      var step := Classify(respond(request));
      if step.Stop? {
        return step.result, requests;
      }
      lastError := step.error;
      assert whole.1 == before + [request] + Fallback(candidates[i + 1..], prompt, user, respond, lastError).1;
      i := i + 1;
    }
    assert candidates[i..] == [];
    assert requests + [] == requests;
    result := ServiceError(lastError + ExhaustedHint);
    assert whole == (result, requests);
  }

  /** `generate_chat_reply(message)`: returns the result and the requests made in order. */
  method GenerateChatReply(message: string, env: Env, resume: Option<string>, resumePath: string,
                           respond: Request -> Outcome)
    returns (result: ServiceResult, requests: seq<Request>)
    ensures (result, requests) == ChatReply(message, env, resume, resumePath, respond)
  {
    if env.apiKey.None? || env.apiKey.value == "" {
      return ServiceError(MissingKeyMessage), [];
    }
    var configured := env.model.GetOr(DefaultModel);
    var fallbacks := CommaList(env.fallbackModels.GetOr(DefaultModel));
    var candidates := CandidateModels(configured, fallbacks);
    var resumeText := LoadResumeText(resume, resumePath);
    if resumeText.Failure? {
      return ServiceError(resumeText.error), [];
    }
    var prompt := BuildSystemPrompt(resumeText.value);
    var user := Trim(message, Python);
    result, requests := TryCandidates(candidates, prompt, user, respond);
  }
}
