// The HTTP layer of the backend: the `/chat` handler, the CORS settings read from the
// environment, and the guards of the two status routes when no database is configured.

module Server {
  import opened Wrappers
  import opened Text
  import opened ChatService

  /** The JSON body of every `/chat` answer. */
  datatype ChatResponse = ChatResponse(reply: string)

  /** The `/chat` handler. The chat service is a parameter; the second component lists the
      messages the handler handed to it (at most one). Whatever the service does (a reply,
      a service error, any other exception) the handler answers with a reply. */
  function Chat(message: string, service: string -> ServiceResult): (r: (ChatResponse, seq<string>))
    ensures AllWhitespace(message, Python) <==> r.1 == []
    ensures r.1 == [] ==> r.0.reply == IDontKnow
    ensures r.1 != [] ==> r.1 == [Trim(message, Python)]
    ensures r.1 != [] && service(r.1[0]).Reply? ==> r.0.reply == service(r.1[0]).text
    ensures r.1 != [] && !service(r.1[0]).Reply? ==> r.0.reply == IDontKnow
  {
    var userMessage := Trim(message, Python);
    if userMessage == "" then (ChatResponse(IDontKnow), [])
    else
      match service(userMessage)
      case Reply(text) => (ChatResponse(text), [userMessage])
      case ServiceError(_) => (ChatResponse(IDontKnow), [userMessage])
      case OtherException => (ChatResponse(IDontKnow), [userMessage])
  }

  /** A service whose replies are never empty nor padded gives a handler whose answers
      are never empty nor padded. */
  lemma ChatAlwaysAnswers(message: string, service: string -> ServiceResult)
    requires forall m :: service(m).Reply? ==> service(m).text != "" && IsTrimmed(service(m).text, Python)
    ensures Chat(message, service).0.reply != "" && IsTrimmed(Chat(message, service).0.reply, Python)
  {
    IDontKnowIsTrimmed();
  }

  /** The handler wired to the model-fallback service answers with a non-empty text
      without surrounding whitespace, whatever the configuration and the responses. */
  lemma ChatEndToEndReply(message: string, env: Env, resume: Option<string>, resumePath: string,
                          respond: Request -> Outcome)
    ensures var reply := Chat(message, m => ChatReply(m, env, resume, resumePath, respond).0).0.reply;
      reply != "" && IsTrimmed(reply, Python)
  {
    var service := m => ChatReply(m, env, resume, resumePath, respond).0;
    forall m ensures service(m).Reply? ==> service(m).text != "" && IsTrimmed(service(m).text, Python) {
      ChatReplyRequests(m, env, resume, resumePath, respond);
    }
    ChatAlwaysAnswers(message, service);
  }

  /** Every request the wired service sends to a model carries the handler's stripped
      message: the service strips it again, and stripping twice is stripping once. */
  lemma ChatEndToEndRequests(message: string, env: Env, resume: Option<string>, resumePath: string,
                             respond: Request -> Outcome)
    ensures var calls := Chat(message, m => ChatReply(m, env, resume, resumePath, respond).0).1;
      calls != [] ==>
        var requests := ChatReply(calls[0], env, resume, resumePath, respond).1;
        forall k :: 0 <= k < |requests| ==> requests[k].userContent == Trim(message, Python)
  {
    var userMessage := Trim(message, Python);
    if userMessage != "" {
      ChatReplyRequests(userMessage, env, resume, resumePath, respond);
      TrimIdempotent(message, Python);
    }
  }

  /** The value of `CORS_ORIGINS` when the variable is unset. */
  const CorsDefaultSetting := "*"

  /** The allowed origins: the stripped, non-blank comma-separated entries of `CORS_ORIGINS`,
      or of "*" when it is unset. */
  function CorsOrigins(setting: Option<string>): (origins: seq<string>)
    ensures forall origin :: origin in origins ==>
              origin != "" && IsTrimmed(origin, Python) && ',' !in origin
  {
    CommaList(setting.GetOr(CorsDefaultSetting))
  }

  /** Credentials are allowed unless the origins are exactly the wildcard alone. */
  function AllowCredentials(origins: seq<string>): bool {
    origins != [CorsDefaultSetting]
  }

  /** A setting holding one clean origin yields that origin alone. */
  lemma CorsSingleOrigin(origin: string)
    requires origin != "" && IsTrimmed(origin, Python) && ',' !in origin
    ensures CorsOrigins(Some(origin)) == [origin]
  {
    CommaListSingle(origin);
    TrimNonEmpty(origin, Python, 0);
  }

  /** With `CORS_ORIGINS` unset every origin is allowed, without credentials. */
  lemma CorsDefault()
    ensures CorsOrigins(None) == ["*"]
    ensures !AllowCredentials(CorsOrigins(None))
  {
    assert IsTrimmed(CorsDefaultSetting, Python) && ',' !in CorsDefaultSetting;
    CorsSingleOrigin(CorsDefaultSetting);
  }

  /** A list of clean origins, written comma-separated, is read back exactly. */
  lemma CorsOriginsRoundTrip(origins: seq<string>)
    requires |origins| >= 1
    requires forall k :: 0 <= k < |origins| ==>
               origins[k] != "" && IsTrimmed(origins[k], Python) && ',' !in origins[k]
    ensures CorsOrigins(Some(Join(origins, ','))) == origins
    ensures AllowCredentials(CorsOrigins(Some(Join(origins, ',')))) <==> origins != ["*"]
  {
    CommaListJoin(origins);
  }

  /** The origins of a setting are its pieces' non-empty strips, in order: for a setting
      such as "http://a, http://b" they are those of "http://a" followed by those of
      " http://b". */
  lemma CorsOriginsSplit(first: string, rest: string)
    requires ',' !in first
    ensures CorsOrigins(Some(first + "," + rest)) == CorsOrigins(Some(first)) + CorsOrigins(Some(rest))
  {
    CommaListConcat(first, rest);
  }

  /** Comma-separated pieces give exactly their non-empty strips, in order. */
  lemma CorsOriginsOfPieces(pieces: seq<string>)
    requires |pieces| >= 1 && forall k :: 0 <= k < |pieces| ==> ',' !in pieces[k]
    ensures CorsOrigins(Some(Join(pieces, ','))) == NonBlankEntries(pieces)
    ensures forall origin :: origin in CorsOrigins(Some(Join(pieces, ','))) <==>
              origin != "" && exists k :: 0 <= k < |pieces| && origin == Trim(pieces[k], Python)
  {
    CommaListOfJoin(pieces);
    NonBlankEntriesMembers(pieces);
  }

  /** A blank `CORS_ORIGINS` yields no origin at all, and then credentials are allowed. */
  lemma CorsBlankSetting(setting: string)
    requires AllWhitespace(setting, Python) && ',' !in setting
    ensures CorsOrigins(Some(setting)) == []
    ensures AllowCredentials(CorsOrigins(Some(setting)))
  {
    CommaListSingle(setting);
  }

  /** An error answer: an HTTP status and its `detail`. */
  datatype HttpError = HttpError(status: nat, detail: string)

  const DbNotConfigured := "Database is not configured"
  const ServiceUnavailable: nat := 503
  /** The number of documents `to_list` fetches. */
  const StatusListLimit: nat := 1000

  /** A stored status check; the timestamp is kept as its ISO text. */
  datatype StatusCheck = StatusCheck(id: string, clientName: string, timestamp: string)

  /** A database handle exists only when both `MONGO_URL` and `DB_NAME` are set and non-empty. */
  function DbConfigured(mongoUrl: Option<string>, dbName: Option<string>): (b: bool)
    ensures b ==> mongoUrl.Some? && dbName.Some?
  {
    mongoUrl.Some? && mongoUrl.value != "" && dbName.Some? && dbName.value != ""
  }

  /** `POST /api/status`. The database is the `status_checks` collection, absent when not
      configured; the fresh id and the current time are parameters. */
  function CreateStatusCheck(db: Option<seq<StatusCheck>>, clientName: string, id: string, timestamp: string)
    : (r: (Result<StatusCheck, HttpError>, Option<seq<StatusCheck>>))
    ensures db.None? <==> r.0.Failure?
    ensures db.None? ==> r.0.error == HttpError(ServiceUnavailable, DbNotConfigured) && r.1 == db
    ensures db.Some? ==> r.0.value == StatusCheck(id, clientName, timestamp)
                         && r.1 == Some(db.value + [r.0.value])
  {
    match db
    case None => (Failure(HttpError(ServiceUnavailable, DbNotConfigured)), None)
    case Some(stored) =>
      var check := StatusCheck(id, clientName, timestamp);
      (Success(check), Some(stored + [check]))
  }

  /** `GET /api/status`: the first thousand stored checks, in storage order. */
  function GetStatusChecks(db: Option<seq<StatusCheck>>): (r: Result<seq<StatusCheck>, HttpError>)
    ensures db.None? <==> r.Failure?
    ensures db.None? ==> r.error == HttpError(ServiceUnavailable, DbNotConfigured)
    ensures db.Some? ==> |r.value| <= StatusListLimit && r.value <= db.value
    ensures db.Some? && |db.value| <= StatusListLimit ==> r.value == db.value
    ensures db.Some? && |db.value| > StatusListLimit ==> |r.value| == StatusListLimit
  {
    match db
    case None => Failure(HttpError(ServiceUnavailable, DbNotConfigured))
    case Some(stored) =>
      Success(if |stored| <= StatusListLimit then stored else stored[..StatusListLimit])
  }

  /** A check created while fewer than a thousand are stored is listed afterwards, last,
      and the earlier ones are listed unchanged before it. */
  lemma CreatedCheckIsListed(stored: seq<StatusCheck>, clientName: string, id: string, timestamp: string)
    requires |stored| < StatusListLimit
    ensures var (created, after) := CreateStatusCheck(Some(stored), clientName, id, timestamp);
      GetStatusChecks(after) == Success(stored + [created.value])
  {
  }
}
