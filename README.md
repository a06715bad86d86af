# Portfolio chat assistant — a Dafny model

The repository is a personal portfolio site with an AI chat assistant. A React widget
posts a visitor's question to a FastAPI backend. The backend answers it with a
hosted language model, using the owner's resume as the only source of facts. This
project models the three pieces of that path that hold logic:

- **The reply generator** (`backend/chat_service.py`). It first checks that an API key
  is set. It builds an ordered, duplicate-free list of candidate models from
  `OPENROUTER_MODEL` and `OPENROUTER_FALLBACK_MODELS`. It loads and strips the resume
  and builds the system prompt. It then asks each candidate in turn:
  - an unavailable model (status 404, 429 or 503, a message containing
    "no endpoints found", or a network failure) passes on to the next candidate;
  - any other error is raised at once;
  - a completion is returned stripped, or "I don't know." when it is blank;
  - when every candidate has passed, the last recorded error is raised with a
    configuration hint.
- **The backend HTTP layer** (`backend/server.py`). The `/chat` handler turns every
  failure into "I don't know.". The CORS settings are parsed from `CORS_ORIGINS`. The
  two status routes answer 503 "Database is not configured" when MongoDB is not set up.
- **The chat widget** (`frontend/src/components/ChatWidget.jsx`). It derives its single
  endpoint URL from `REACT_APP_BACKEND_URL`. It starts from a fixed initial state and
  enables sending only for a non-blank input while idle. A send is a state machine:
  - it appends the visitor's trimmed message and marks the widget loading;
  - it makes one request;
  - it appends the assistant's reply or sets an error line;
  - it always stops loading.

Files:

- `wrappers.dfy` (`Wrappers`): `Option` and `Result`.
- `text.dfy` (`Text`): the string operations both runtimes rely on:
  - Python's `str.strip()` and JavaScript's `trim()`, which differ only in their
    whitespace sets;
  - `split`;
  - the "stripped, non-blank, comma-separated entries" parsing that both backend
    settings use;
  - ASCII lower-casing and substring search;
  - decimal rendering of status codes.
- `chat_service.dfy` (`ChatService`): the reply generator.
  - Pure parts are functions: `LoadResumeText`, `BuildSystemPrompt`, `Classify` (one
    response) and `Fallback` (the whole loop).
  - The source's loops are methods proved against those functions: `CandidateModels`
    and `TryCandidates`. `GenerateChatReply` composes them.
- `server.dfy` (`Server`): the `/chat` handler, the CORS parsing and the status routes.
- `chat_widget.dfy` (`ChatWidget`): the URL derivation, `CanSend`, `Settle` (how one
  request outcome ends a send), and the `Widget` class holding the component's state.
  The widget's `sendMessage` awaits its request, so it is split into `BeginSend` (up to
  the `fetch`) and `FinishSend` (after it). `SendMessage` composes the two.

Inputs from outside become parameters:

- environment variables are `Option<string>` values (`None` when unset);
- the resume file is its content (`None` when the file does not exist);
- each HTTP exchange is a function from the request to its outcome (`respond`);
- the database collection is an `Option<seq<StatusCheck>>`;
- fresh ids and timestamps are values.

The widget makes exactly one request, to `CHAT_URL` (`ChatWidget.jsx:39`); the only
fallback loop is the backend's loop over models.

Two behaviours of the code that the model keeps:

- With `requests` 2.27 or later, `response.json()` on a non-JSON success body raises
  `requests.JSONDecodeError`. That is a `RequestException`, so the loop records the
  error and moves on (`NotJson`) instead of raising "Unexpected OpenRouter response
  format".
- A completion whose `content` is not a string makes `.strip()` raise
  `AttributeError`, which no handler in the service catches (`OtherException`). The
  `/chat` handler turns it into "I don't know.".

## Model

| member | source | states |
|---|---|---|
| Text.Trim | backend/chat_service.py:23 | the stripped text has no whitespace at either end, is empty exactly when the input is all whitespace, leaves an already stripped text unchanged, and holds only characters of the input |
| Text.TrimIsSlice | backend/chat_service.py:23 | the stripped text is a slice of the input with only whitespace before and after it, so that only leading and trailing whitespace is removed |
| Text.TrimIdempotent | backend/chat_service.py:72 | stripping twice is stripping once |
| Text.TrimNonEmpty | frontend/src/components/ChatWidget.jsx:20 | a text with a non-whitespace character trims to a non-empty text |
| Text.Split | backend/server.py:108 | `split(",")` gives at least one piece and no piece holds the separator |
| Text.JoinSplit | backend/server.py:108 | joining the pieces of a split with the separator gives the text back |
| Text.SplitJoin | backend/server.py:108 | splitting pieces without the separator, once joined, gives the pieces back |
| Text.SplitSingle | backend/server.py:108 | a text without the separator splits into itself alone |
| Text.SplitAtSeparator | backend/server.py:108 | a separator-free prefix followed by the separator is split off as the first piece |
| Text.NonBlankEntries | backend/chat_service.py:49 | keeps at most as many entries as there are pieces, each non-empty and stripped |
| Text.NonBlankEntriesMembers | backend/chat_service.py:49 | the kept entries are exactly the non-empty strips of the pieces |
| Text.NonBlankEntriesConcat | backend/chat_service.py:49 | the entries of two runs of pieces are those of the first followed by those of the second, so no entry is dropped, added or reordered |
| Text.NonBlankEntriesAvoid | backend/server.py:108 | a character in no piece is in no kept entry |
| Text.NonBlankEntriesOfClean | backend/chat_service.py:49 | pieces that are already non-empty and stripped are kept unchanged, in order |
| Text.CommaList | backend/chat_service.py:49 | every entry is non-empty, stripped and free of commas |
| Text.CommaListConcat | backend/server.py:108 | a value split at its first comma gives the entries before the comma followed by the entries after it |
| Text.CommaListOfJoin | backend/server.py:108 | comma-separated pieces give exactly their non-empty strips, in order |
| Text.CommaListJoin | backend/server.py:108 | clean entries written comma-separated are read back exactly (round trip) |
| Text.CommaListSingle | backend/chat_service.py:48-49 | a value without commas yields itself stripped, or nothing when it is blank |
| Text.Lower | backend/chat_service.py:92 | lower-casing keeps the length, leaves no ASCII capital, turns each capital into the letter 32 code points above it and leaves every other character in place |
| Text.LowerIdempotent | backend/chat_service.py:92 | lower-casing twice is lower-casing once |
| Text.LowerConcat | backend/chat_service.py:92 | lower-casing distributes over concatenation |
| Text.LowerDigits | backend/chat_service.py:79 | a run of digits is its own lower case and holds no "no" |
| Text.NoNoPairExcludes | backend/chat_service.py:92 | a text with no "n" followed by "o" cannot contain "no endpoints found" |
| Text.NatToString | backend/chat_service.py:79 | the status is written as a non-empty run of digits with no leading zero |
| Text.ParseNatToString | frontend/src/components/ChatWidget.jsx:46 | reading back the written status gives the status (round trip) |
| ChatService.LoadResumeText | backend/chat_service.py:18-26 | succeeds exactly when the file exists and is not blank, with the stripped content; otherwise "Resume file not found at <path>" or "Resume file is empty" |
| ChatService.BuildSystemPrompt | backend/chat_service.py:29-39 | the prompt is the fixed instructions followed by exactly the resume text |
| ChatService.UniqueNonEmpty | backend/chat_service.py:50-53 | the kept names are pairwise distinct and are exactly the non-empty names of the input |
| ChatService.UniqueNonEmptyOrder | backend/chat_service.py:50-53 | the kept names are in the order of their first occurrence |
| ChatService.UniqueNonEmptyHead | backend/chat_service.py:51-53 | a non-empty first name comes first |
| ChatService.CandidatesShape | backend/chat_service.py:47-53 | no duplicates, no empty names, exactly the configured model (when non-empty) and the fallback entries, first-seen order, configured model first |
| ChatService.CandidatesDefault | backend/chat_service.py:47-53 | with neither model variable set the only candidate is "openrouter/free" |
| ChatService.DefaultFallbackModels | backend/chat_service.py:48-49 | an unset fallback variable yields the one entry "openrouter/free" |
| ChatService.CandidatesOfOneModel | backend/chat_service.py:50-53 | a configured model repeated as the only fallback is tried once |
| ChatService.CandidateModels | backend/chat_service.py:50-53 | the append loop builds exactly `UniqueNonEmpty` of the configured model followed by the fallbacks |
| ChatService.ClassifySteps | backend/chat_service.py:76-105 | one response moves the loop on exactly after a failed request, a non-JSON OK body or an unavailable model, recording the error; any other non-OK response raises its recorded message; a malformed completion raises the format error; non-text content lets its exception escape; otherwise the reply is non-empty and stripped, the completion's strip or "I don't know." when that is blank |
| ChatService.StatusDecidesWithoutApiMessage | backend/chat_service.py:78-96 | without the API's message, a non-OK response moves on exactly when its status is 404, 429 or 503, and otherwise raises "OpenRouter request failed with status N" |
| ChatService.NoEndpointsMessageMovesOn | backend/chat_service.py:84-95 | an API message containing "no endpoints found" in any ASCII case moves on whatever the status, recording that message |
| ChatService.FallbackUnfold | backend/chat_service.py:66-105 | one turn of the loop: the first model is asked and either stops the loop or hands over to the rest with its error recorded |
| ChatService.FallbackRequests | backend/chat_service.py:66-103 | requests go to a prefix of the candidates, one each, in order, and every request but the last moved on |
| ChatService.FallbackResult | backend/chat_service.py:64-109 | the loop stops with the result of the first outcome that does not move on; otherwise every candidate was tried and the last recorded error (initially "OpenRouter request failed") is raised with the configuration hint |
| ChatService.FallbackReply | backend/chat_service.py:98-100 | a reply is never empty and has no surrounding whitespace |
| ChatService.IDontKnowIsTrimmed | backend/chat_service.py:100 | the fallback answer is non-empty and stripped |
| ChatService.TryCandidates | backend/chat_service.py:64-109 | the loop over the candidates returns exactly the result and the requests of `Fallback` |
| ChatService.GenerateChatReply | backend/chat_service.py:42-109 | the whole operation returns exactly the result and the requests of `ChatReply` |
| ChatService.ChatReplyPreconditions | backend/chat_service.py:43-45 | a missing or empty API key raises before any request; a missing or blank resume raises its error before any request |
| ChatService.ChatReplyIsFallback | backend/chat_service.py:55-66 | with a key and a resume, the operation is the loop over the candidates with the prompt from the stripped resume and the stripped message |
| ChatService.ChatReplyRequests | backend/chat_service.py:66-100 | the candidates are requested in order, each at most once, with the stripped message and the prompt; each request but the last moved on; a reply is non-empty and stripped |
| ChatService.ChatReplyDistinctModels | backend/chat_service.py:50-53 | no model is requested twice |
| Server.Chat | backend/server.py:89-103 | a blank message answers "I don't know." without calling the service; otherwise the service gets the stripped message, and its reply is returned while any error or exception answers "I don't know." |
| Server.ChatAlwaysAnswers | backend/server.py:89-103 | with a service whose replies are non-empty and stripped, every answer is non-empty and stripped |
| Server.ChatEndToEndReply | backend/server.py:89-103 | wired to the reply generator, the handler always answers a non-empty stripped text |
| Server.ChatEndToEndRequests | backend/server.py:92-96 | every model request carries the handler's stripped message |
| Server.CorsOrigins | backend/server.py:108 | every allowed origin is non-empty, stripped and comma-free |
| Server.CorsOriginsSplit | backend/server.py:108 | a setting such as "http://a, http://b" yields the origins of its first piece followed by those of the rest |
| Server.CorsOriginsOfPieces | backend/server.py:108 | comma-separated pieces yield exactly their non-empty strips, in order, and nothing else |
| Server.CorsDefault | backend/server.py:108-109 | with `CORS_ORIGINS` unset the origins are ["*"] and credentials are not allowed |
| Server.CorsSingleOrigin | backend/server.py:108 | a setting holding one clean origin yields that origin alone |
| Server.CorsOriginsRoundTrip | backend/server.py:108-109 | clean origins written comma-separated are read back exactly, and credentials are allowed exactly when they are not ["*"] |
| Server.CorsBlankSetting | backend/server.py:108-109 | a blank setting yields no origin, and credentials are then allowed |
| Server.DbConfigured | backend/server.py:22-25 | a database handle requires both `MONGO_URL` and `DB_NAME` |
| Server.CreateStatusCheck | backend/server.py:58-71 | without a database: 503 "Database is not configured" and nothing stored; otherwise the new check is returned and appended to the collection |
| Server.GetStatusChecks | backend/server.py:73-86 | without a database: 503 "Database is not configured"; otherwise a prefix of the stored checks: all of them when there are at most 1000, exactly 1000 when there are more |
| Server.CreatedCheckIsListed | backend/server.py:58-86 | with the collection read in insertion order, a check created while fewer than 1000 are stored is listed afterwards, last, after the earlier ones |
| ChatWidget.ApiBaseUrl | frontend/src/components/ChatWidget.jsx:4 | the configured URL (empty when unset), less one trailing slash when it ends with one |
| ChatWidget.ChatUrl | frontend/src/components/ChatWidget.jsx:5 | the endpoint always ends with "/chat", preceded by exactly the base URL |
| ChatWidget.ChatUrlIgnoresTrailingSlash | frontend/src/components/ChatWidget.jsx:4-5 | a backend URL with or without its trailing slash reaches the same endpoint, base + "/chat" |
| ChatWidget.ChatUrlKeepsSecondSlash | frontend/src/components/ChatWidget.jsx:4 | at most one trailing slash is removed |
| ChatWidget.ChatUrlWithoutBackend | frontend/src/components/ChatWidget.jsx:4-5 | an unset or empty backend URL gives the relative "/chat" |
| ChatWidget.CanSend | frontend/src/components/ChatWidget.jsx:20 | sending is enabled exactly when the input has a non-whitespace character and nothing is pending |
| ChatWidget.SendGuardIsCanSend | frontend/src/components/ChatWidget.jsx:30-31 | the guard of `sendMessage` lets a send through exactly when `canSend` holds |
| ChatWidget.Settle | frontend/src/components/ChatWidget.jsx:45-62 | a rejected fetch fails with the error's message or the "unable to reach" text; a non-OK status fails with `ErrorDetail`; an OK body that cannot be read fails with the reading error, and a `null` one with the TypeError text; any other OK JSON value answers with its string `reply` or "I don't know." |
| ChatWidget.AnsweredOnlyWhenOk | frontend/src/components/ChatWidget.jsx:45-62 | a send is answered exactly when the response is OK and its body parses to a value other than `null` |
| ChatWidget.ErrorDetail | frontend/src/components/ChatWidget.jsx:46-51 | the error is never empty; it is the body's `detail` when that is a string with a non-whitespace character, and otherwise "Chat request failed with status N" |
| ChatWidget.HttpErrorIsReported | frontend/src/components/ChatWidget.jsx:45-55 | a non-OK response is never answered and leaves a non-empty error |
| ChatWidget.HttpErrorNamesStatus | frontend/src/components/ChatWidget.jsx:46 | without a usable `detail` (none, not a string, or blank) the error is the status prefix followed by the status, which reads back as the status |
| ChatWidget.InitialConversation | frontend/src/components/ChatWidget.jsx:10-15 | the greeting alone, idle, is a well-formed conversation |
| ChatWidget.ConversationAppend | frontend/src/components/ChatWidget.jsx:35 | appending keeps the conversation well formed when a visitor message is non-blank and stripped |
| ChatWidget.ConversationSettled | frontend/src/components/ChatWidget.jsx:64-66 | a well-formed conversation stays so once nothing is pending |
| ChatWidget.Widget.constructor | frontend/src/components/ChatWidget.jsx:8-17 | closed, empty input, the greeting as the only message, not loading, no error, endpoint from the backend URL |
| ChatWidget.Widget.Toggle | frontend/src/components/ChatWidget.jsx:116 | the panel flips between open and closed and nothing else changes |
| ChatWidget.Widget.Close | frontend/src/components/ChatWidget.jsx:78 | the panel is closed and nothing else changes |
| ChatWidget.Widget.SetInput | frontend/src/components/ChatWidget.jsx:101 | the input takes the typed value and nothing else changes |
| ChatWidget.Widget.BeginSend | frontend/src/components/ChatWidget.jsx:28-43 | a blank input or a pending send changes nothing; otherwise error and input are cleared, the trimmed text is appended as the visitor's message, loading is set, and one request to the endpoint carries that text |
| ChatWidget.Widget.FinishSend | frontend/src/components/ChatWidget.jsx:45-66 | an answered send appends exactly one assistant message; a failed one sets the error and appends nothing; earlier messages are kept and loading always ends |
| ChatWidget.Widget.SendMessage | frontend/src/components/ChatWidget.jsx:28-67 | at most one request, to the endpoint, carrying the trimmed input; the conversation gains the visitor's message and then the reply, or the error is set; loading ends |

## Left out

- HTTP, JSON decoding and the network. Each exchange is an abstract outcome, and the
  parsed fields the code looks at are `Option` values.
- The request details that carry no logic: the OpenRouter URL, the headers
  (`SITE_URL`, `SITE_NAME`), the `temperature` and the 30-second timeout.
- Reading the environment, `.env` files and the resume file. Their values are
  parameters. A resume that is not valid UTF-8 raises `UnicodeDecodeError` on reading;
  this is not modelled.
- Text.Lower: ASCII lower-casing only. Python's `str.lower()` also maps non-ASCII
  capitals, so a non-ASCII spelling of "no endpoints found" is not recognised by the model.
- The `isinstance` checks on a non-OK body. The model takes the body's `error.message`
  after `str(...)` has been applied, as the optional `apiMessage` of the outcome, and a
  non-string truthy message is folded into it.
- The requests package's version. Before 2.27, a non-JSON success body raises a plain
  `ValueError`, which the service reports as "Unexpected OpenRouter response format";
  the model follows 2.27 and later (`NotJson`).
- MongoDB itself: the connection, the `_id` projection, ISO timestamp serialisation and
  parsing, uuid generation, the shutdown hook, logging, FastAPI routing and CORS
  middleware wiring, and the `GET /api/` "Hello World" route.
- Server.GetStatusChecks, Server.CreatedCheckIsListed: the collection is a sequence in
  insertion order. `find({})` has no sort, and MongoDB does not promise insertion order
  without one, so "the first 1000" and "listed last" hold only under that assumption.
- Server.DbConfigured: states only that both variables are needed. Whether a Motor
  client object is truthy is library behaviour, outside this model.
- The widget's rendering, the scroll-into-view effect and `console.error`. The other
  frontend files (sections, navigation bar, footer, buttons, `App.js`) are presentation
  and static data, not part of this model.
- The exact wording of the TypeError raised when an OK body is JSON `null`. It depends
  on the JavaScript engine; the model uses V8's wording.
- React's batching of state updates and the event object (`preventDefault`). A send
  is modelled as its two synchronous halves around the awaited request.
- Concurrency between the widget and other visitors, and between backend requests.
