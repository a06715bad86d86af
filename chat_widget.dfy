// The chat widget of the portfolio page: where it sends messages, when it lets the visitor
// send, and how the conversation state changes around the single request of a send.

module ChatWidget {
  import opened Wrappers
  import opened Text

  /** The backend base URL: the configured value (empty when unset) with one trailing
      slash removed. */
  function ApiBaseUrl(backendUrl: Option<string>): (base: string)
    ensures var raw := backendUrl.GetOr("");
      if raw != [] && raw[|raw| - 1] == '/' then raw == base + "/" else base == raw
  {
    var raw := backendUrl.GetOr("");
    if raw != [] && raw[|raw| - 1] == '/' then raw[..|raw| - 1] else raw
  }

  const ChatPath := "/chat"

  /** The single endpoint of the widget: the base followed by `/chat`, or the relative
      `/chat` when there is no base. */
  function ChatUrl(backendUrl: Option<string>): (url: string)
    ensures |url| >= |ChatPath| && url[|url| - |ChatPath|..] == ChatPath
    ensures url[..|url| - |ChatPath|] == ApiBaseUrl(backendUrl)
  {
    var base := ApiBaseUrl(backendUrl);
    if base != "" then base + ChatPath else ChatPath
  }

  /** A backend URL with or without its (one) trailing slash reaches the same endpoint. */
  lemma ChatUrlIgnoresTrailingSlash(url: string)
    requires url == [] || url[|url| - 1] != '/'
    ensures ChatUrl(Some(url + "/")) == ChatUrl(Some(url))
    ensures url != "" ==> ChatUrl(Some(url)) == url + ChatPath
  {
    assert (url + "/")[..|url + "/"| - 1] == url;
  }

  /** Only one trailing slash is removed. */
  lemma ChatUrlKeepsSecondSlash(url: string)
    ensures ChatUrl(Some(url + "//")) == url + "/" + ChatPath
  {
    assert (url + "//")[..|url + "//"| - 1] == url + "/";
  }

  /** An unset backend URL and an empty one both give the relative endpoint. */
  lemma ChatUrlWithoutBackend()
    ensures ChatUrl(None) == ChatUrl(Some("")) == ChatPath
  {
  }

  /** The send button is enabled exactly when the input has a non-whitespace character
      and no request is pending. */
  function CanSend(input: string, isLoading: bool): (b: bool)
    ensures b <==> !isLoading && exists i :: 0 <= i < |input| && !IsSpace(input[i], JavaScript)
  {
    |Trim(input, JavaScript)| > 0 && !isLoading
  }

  /** `sendMessage` repeats the button's condition: it goes ahead exactly when the button
      is enabled. */
  lemma SendGuardIsCanSend(input: string, isLoading: bool)
    ensures !(Trim(input, JavaScript) == "" || isLoading) <==> CanSend(input, isLoading)
  {
  }

  datatype Role = User | Assistant

  datatype Message = Message(role: Role, content: string)

  const Greeting := "Hi, I can answer questions about my resume and portfolio."
  const IDontKnow := "I don't know."
  const UnreachableMessage := "Unable to reach the assistant right now. Please try again."
  const StatusFailurePrefix := "Chat request failed with status "
  /** The message of the TypeError raised when reading `reply` of a `null` body (the text
      is the one V8 uses). */
  const NullReplyMessage := "Cannot read properties of null (reading 'reply')"

  /** A value thrown by the browser: an `Error` with its message, or anything else. */
  datatype Thrown = ErrorObject(message: string) | NonError

  /** A parsed JSON body, as the widget reads it: `null`, an object with its `reply` and
      `detail` fields when these are strings, or any other value (whose fields are
      `undefined`). */
  datatype Json = JsonNull | JsonObject(reply: Option<string>, detail: Option<string>) | JsonOther

  /** The outcome of `response.json()`: a value, or the `Error` it rejects with. */
  datatype ResponseBody = Parsed(json: Json) | Unreadable(message: string)

  /** The outcome of the `fetch`: a response, or the value it rejects with. */
  datatype FetchOutcome = Response(status: nat, body: ResponseBody) | Rejected(thrown: Thrown)

  /** The body of the one request of a send. */
  datatype ChatRequest = ChatRequest(url: string, message: string)

  /** `response.ok`. */
  predicate IsOk(status: nat) {
    200 <= status <= 299
  }

  /** How a send ends: an assistant reply to append, or the text the error line shows. */
  datatype Settlement = Answered(reply: string) | Failed(error: string)

  /** The end of a send for each outcome of its request. */
  function Settle(outcome: FetchOutcome): (s: Settlement)
    ensures outcome.Rejected? ==>
      s == Failed(if outcome.thrown.ErrorObject? then outcome.thrown.message else UnreachableMessage)
    ensures outcome.Response? && !IsOk(outcome.status) ==> s == Failed(ErrorDetail(outcome.status, outcome.body))
    ensures outcome.Response? && IsOk(outcome.status) && outcome.body.Unreadable? ==>
      s == Failed(outcome.body.message)
    ensures outcome.Response? && IsOk(outcome.status) && outcome.body == Parsed(JsonNull) ==>
      s == Failed(NullReplyMessage)
    ensures outcome.Response? && IsOk(outcome.status) && outcome.body.Parsed? && !outcome.body.json.JsonNull? ==>
      s == Answered(if outcome.body.json.JsonObject? && outcome.body.json.reply.Some?
                    then outcome.body.json.reply.value else IDontKnow)
  {
    match outcome
    case Rejected(thrown) =>
      Failed(if thrown.ErrorObject? then thrown.message else UnreachableMessage)
    case Response(status, body) =>
      if !IsOk(status) then
        Failed(ErrorDetail(status, body))
      else
        match body
        case Unreadable(message) => Failed(message)
        case Parsed(JsonNull) => Failed(NullReplyMessage)
        case Parsed(JsonObject(Some(reply), _)) => Answered(reply)
        case Parsed(_) => Answered(IDontKnow)
  }

  /** The error shown for a non-OK response: the body's `detail` when it is a string with a
      non-whitespace character, otherwise a message naming the status. */
  function ErrorDetail(status: nat, body: ResponseBody): (detail: string)
    ensures detail != ""
    ensures body.Parsed? && body.json.JsonObject? && body.json.detail.Some?
            && !AllWhitespace(body.json.detail.value, JavaScript)
            ==> detail == body.json.detail.value
    ensures !(body.Parsed? && body.json.JsonObject? && body.json.detail.Some?
              && !AllWhitespace(body.json.detail.value, JavaScript))
            ==> detail == StatusFailurePrefix + NatToString(status)
  {
    if body.Parsed? && body.json.JsonObject? && body.json.detail.Some?
       && Trim(body.json.detail.value, JavaScript) != ""
    then body.json.detail.value
    else StatusFailurePrefix + NatToString(status)
  }

  /** A non-OK response is never answered and always leaves a non-empty error. */
  lemma HttpErrorIsReported(status: nat, body: ResponseBody)
    requires !IsOk(status)
    ensures Settle(Response(status, body)) == Failed(ErrorDetail(status, body))
    ensures Settle(Response(status, body)).error != ""
  {
  }

  /** A send is answered exactly when the response is OK and its body parses to a value
      other than `null`; every other outcome leaves the conversation without a reply. */
  lemma AnsweredOnlyWhenOk(outcome: FetchOutcome)
    ensures Settle(outcome).Answered? <==>
      outcome.Response? && IsOk(outcome.status) && outcome.body.Parsed? && !outcome.body.json.JsonNull?
  {
  }

  /** A non-OK response without a usable `detail` reports its status, which can be read
      back from the message. */
  lemma HttpErrorNamesStatus(status: nat, body: ResponseBody)
    requires !IsOk(status)
    requires !(body.Parsed? && body.json.JsonObject? && body.json.detail.Some?
               && !AllWhitespace(body.json.detail.value, JavaScript))
    ensures var error := Settle(Response(status, body)).error;
      |error| > |StatusFailurePrefix| && error[..|StatusFailurePrefix|] == StatusFailurePrefix
      && error[|StatusFailurePrefix|..] == NatToString(status)
      && ParseNat(error[|StatusFailurePrefix|..]) == status
  {
    var error := StatusFailurePrefix + NatToString(status);
    assert error[|StatusFailurePrefix|..] == NatToString(status);
    ParseNatToString(status);
  }

  /** The conversation starts with the greeting, every visitor message is a non-blank
      trimmed text, and while a request is pending the last message is the visitor's. */
  predicate WellFormedConversation(messages: seq<Message>, isLoading: bool) {
    |messages| >= 1 && messages[0] == Message(Assistant, Greeting)
    && (forall k :: 0 <= k < |messages| && messages[k].role == User ==>
          messages[k].content != "" && IsTrimmed(messages[k].content, JavaScript))
    && (isLoading ==> |messages| >= 2 && messages[|messages| - 1].role == User)
  }

  /** The greeting alone, with nothing pending, is a well-formed conversation. */
  lemma InitialConversation()
    ensures WellFormedConversation([Message(Assistant, Greeting)], false)
  {
  }

  /** Appending a message keeps the conversation well formed when a visitor message is
      non-blank and trimmed, and a request is pending only after a visitor message. */
  lemma ConversationAppend(messages: seq<Message>, isLoading: bool, m: Message, loading: bool)
    requires WellFormedConversation(messages, isLoading)
    requires m.role == User ==> m.content != "" && IsTrimmed(m.content, JavaScript)
    requires loading ==> m.role == User
    ensures WellFormedConversation(messages + [m], loading)
  {
    assert (messages + [m])[0] == messages[0];
  }

  /** A conversation stays well formed once nothing is pending. */
  lemma ConversationSettled(messages: seq<Message>, isLoading: bool)
    requires WellFormedConversation(messages, isLoading)
    ensures WellFormedConversation(messages, false)
  {
  }

  /** The state of one widget on the page. */
  class Widget {
    const chatUrl: string
    var isOpen: bool
    var input: string
    var messages: seq<Message>
    var isLoading: bool
    var error: string

    ghost predicate Valid()
      reads this
    {
      WellFormedConversation(messages, isLoading)
    }

    /** The initial state: closed, empty input, the greeting alone, idle, no error. */
    constructor (backendUrl: Option<string>)
      ensures chatUrl == ChatUrl(backendUrl)
      ensures !isOpen && input == "" && messages == [Message(Assistant, Greeting)]
      ensures !isLoading && error == ""
      ensures Valid()
    {
      chatUrl := ChatUrl(backendUrl);
      isOpen := false;
      input := "";
      messages := [Message(Assistant, Greeting)];
      isLoading := false;
      error := "";
      InitialConversation();
    }

    /** The toggle button opens a closed panel and closes an open one. */
    method Toggle()
      modifies this
      ensures isOpen == !old(isOpen)
      ensures input == old(input) && messages == old(messages)
      ensures isLoading == old(isLoading) && error == old(error)
      ensures old(Valid()) ==> Valid()
    {
      isOpen := !isOpen;
    }

    /** The close button of the panel. */
    method Close()
      modifies this
      ensures !isOpen
      ensures input == old(input) && messages == old(messages)
      ensures isLoading == old(isLoading) && error == old(error)
      ensures old(Valid()) ==> Valid()
    {
      isOpen := false;
    }

    /** Typing into the input field. */
    method SetInput(value: string)
      modifies this
      ensures input == value
      ensures isOpen == old(isOpen) && messages == old(messages)
      ensures isLoading == old(isLoading) && error == old(error)
      ensures old(Valid()) ==> Valid()
    {
      input := value;
    }

    /** The synchronous start of a send. A blank input or a pending request makes it do
        nothing; otherwise the error and the input are cleared, the trimmed text is
        appended as the visitor's message, the widget is loading, and the request to send
        is returned. */
    method BeginSend() returns (request: Option<ChatRequest>)
      requires Valid()
      modifies this
      ensures request.None? <==> Trim(old(input), JavaScript) == "" || old(isLoading)
      ensures request.None? ==>
        input == old(input) && messages == old(messages) && isLoading == old(isLoading)
        && error == old(error)
      ensures request.Some? ==>
        request.value == ChatRequest(chatUrl, Trim(old(input), JavaScript))
        && input == "" && error == "" && isLoading
        && messages == old(messages) + [Message(User, Trim(old(input), JavaScript))]
      ensures isOpen == old(isOpen)
      ensures Valid()
    {
      var userMessage := Trim(input, JavaScript);
      if userMessage == "" || isLoading {
        return None;
      }
      var sent := Message(User, userMessage);
      ConversationAppend(messages, isLoading, sent, true);
      error, input, messages, isLoading := "", "", messages + [sent], true;
      request := Some(ChatRequest(chatUrl, userMessage));
    }

    /** The rest of a send, once its request has an outcome: a reply is appended as the
        assistant's message, any failure sets the error line instead, and in every case
        the widget stops loading. */
    method FinishSend(outcome: FetchOutcome)
      requires Valid()
      modifies this
      ensures Settle(outcome).Answered? ==>
        messages == old(messages) + [Message(Assistant, Settle(outcome).reply)] && error == old(error)
      ensures Settle(outcome).Failed? ==>
        messages == old(messages) && error == Settle(outcome).error
      ensures !isLoading && input == old(input) && isOpen == old(isOpen)
      ensures Valid()
    {
      ConversationSettled(messages, isLoading);
      match outcome {
        case Rejected(thrown) =>
          error := if thrown.ErrorObject? then thrown.message else UnreachableMessage;
        case Response(status, body) =>
          if !IsOk(status) {
            var errorDetail := StatusFailurePrefix + NatToString(status);
            if body.Parsed? && body.json.JsonObject? && body.json.detail.Some?
               && Trim(body.json.detail.value, JavaScript) != "" {
              errorDetail := body.json.detail.value;
            }
            error := errorDetail;
          } else if body.Unreadable? {
            error := body.message;
          } else if body.json.JsonNull? {
            error := NullReplyMessage;
          } else {
            var reply := if body.json.JsonObject? && body.json.reply.Some? then body.json.reply.value
                         else IDontKnow;
            ConversationAppend(messages, false, Message(Assistant, reply), false);
            messages := messages + [Message(Assistant, reply)];
          }
      }
      isLoading := false;
    }

    /** A whole send, the request answered by `respond`: at most one request, to the
        widget's endpoint, with the trimmed input; the conversation only grows. */
    method SendMessage(respond: ChatRequest -> FetchOutcome) returns (request: Option<ChatRequest>)
      requires Valid()
      modifies this
      ensures request.None? <==> Trim(old(input), JavaScript) == "" || old(isLoading)
      ensures request.None? ==>
        input == old(input) && messages == old(messages) && isLoading == old(isLoading)
        && error == old(error)
      ensures request.Some? ==>
        request.value == ChatRequest(chatUrl, Trim(old(input), JavaScript)) && input == "" && !isLoading
      ensures request.Some? && Settle(respond(request.value)).Answered? ==>
        messages == old(messages) + [Message(User, request.value.message)]
                                  + [Message(Assistant, Settle(respond(request.value)).reply)]
        && error == ""
      ensures request.Some? && Settle(respond(request.value)).Failed? ==>
        messages == old(messages) + [Message(User, request.value.message)]
        && error == Settle(respond(request.value)).error
      ensures isOpen == old(isOpen)
      ensures Valid()
    {
      request := BeginSend();
      if request.Some? {
        var outcome := respond(request.value);
        FinishSend(outcome);
      }
    }
  }
}
