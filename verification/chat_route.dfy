/** The chat relay endpoint `/api/chat`: `POST` validates the message, checks
    the credential, folds the earlier turns (without the widget's canned
    greeting) into one prompt, makes one provider call and maps its outcome,
    or any exception, to a JSON reply; `GET` is refused. */
module ChatRoute {
  import opened Wrappers
  import opened Text
  import opened Api
  import opened ChatHistory
  import opened ErrorClassification

  /** The `message` property of the parsed body; every value other than a
      string is the one `NonString` value. */
  datatype Field = Missing | Str(s: string) | NonString

  /** The `messages` property of the parsed body: absent, `null` or without a
      positive `length` (the handler then uses no history); an array of turns;
      or any other value on which the history filter or the rendering throws:
      a non-array with a positive `length`, on which `.filter` throws, or an
      array holding `null`, `undefined` or another element whose `role`
      cannot be read. */
  datatype History = NoHistory | Turns(turns: seq<Turn>) | Unusable(error: Thrown)

  datatype Request = Request(message: Field, messages: History)

  /** The outcome of `await req.json()` and the destructuring of its result. */
  datatype RequestBody = Parsed(request: Request) | Unparseable(error: Thrown)

  /** The reply, together with every prompt handed to the provider on the way. */
  datatype Exchange = Exchange(reply: Reply, prompts: seq<string>)

  const InvalidMessageText := "Message is required and must be a non-empty string"
  const MissingKeyText := "API configuration error. Please set GEMINI_API_KEY environment variable."
  const MethodNotAllowedText := "Method not allowed. Use POST to send messages."

  const Preamble := "Previous conversation:\n"
  const CurrentMarker := "\n\nCurrent message: "

  /** `message` is truthy, a string, and not blank after trimming. */
  predicate ValidMessage(f: Field) {
    f.Str? && Trim(f.s) != []
  }

  // ---------------------------------------------------------------------
  // Prompt

  /** The turns that survive the history filter. */
  function KeptTurns(h: History): seq<Turn> {
    match h
    case Turns(ts) => DropGreeting(ts)
    case _ => []
  }

  /** The prompt sent to the provider for a valid request whose history is
      usable: the trimmed message alone when no turn is kept (this includes a
      history that held only the greeting), otherwise the context under a
      preamble followed by the trimmed message. */
  function PromptFor(req: Request): (prompt: string)
    requires ValidMessage(req.message) && !req.messages.Unusable?
    ensures KeptTurns(req.messages) == [] ==> prompt == Trim(req.message.s)
    ensures KeptTurns(req.messages) != [] ==>
      prompt == Preamble + Context(KeptTurns(req.messages)) + CurrentMarker + Trim(req.message.s)
    ensures EndsWith(prompt, Trim(req.message.s))
  {
    // The handler's `messages.length > 0` test needs no branch of its own:
    // an empty history keeps no turn, and `Context` is empty exactly then.
    var message := Trim(req.message.s);
    var kept := KeptTurns(req.messages);
    if kept != [] then
      var ctx := Context(kept);
      EndsWithAppended(Preamble + ctx + CurrentMarker, message);
      Preamble + ctx + CurrentMarker + message
    else
      assert message[0..] == message;
      message
  }

  /** The example conversation: the greeting is left out, the other turns are
      kept in order before the current message. */
  lemma PromptExample()
    ensures PromptFor(Request(Str("C"), Turns([Turn("assistant", Greeting), Turn("user", "A"), Turn("assistant", "B")])))
         == "Previous conversation:\n" + "user: A\nassistant: B" + "\n\nCurrent message: " + "C"
  {
    ExampleKept(Turns([Turn("assistant", Greeting), Turn("user", "A"), Turn("assistant", "B")]));
    ExampleContext();
    TrimFixpoint("C");
  }

  lemma ExampleKept(h: History)
    requires h == Turns([Turn("assistant", Greeting), Turn("user", "A"), Turn("assistant", "B")])
    ensures KeptTurns(h) == [Turn("user", "A"), Turn("assistant", "B")]
  {
    ExampleHistoryKept();
  }

  /** A turn that is not the greeting, sent last in the history, ends the
      context and is followed by the current message. */
  lemma PromptEndsWithLastTurn(req: Request, earlier: seq<Turn>, last: Turn)
    requires ValidMessage(req.message) && req.messages == Turns(earlier + [last])
    requires !IsGreetingTurn(last)
    ensures EndsWith(PromptFor(req), Render(last) + CurrentMarker + Trim(req.message.s))
  {
    DropGreetingSnoc(earlier, last);
    var kept := DropGreeting(earlier);
    ContextSnoc(kept, last);
    var front := if kept == [] then [] else Context(kept) + "\n";
    assert Context(kept + [last]) == front + Render(last);
    EndsWithLastParts(Preamble, front, Render(last), CurrentMarker, Trim(req.message.s));
  }

  /** A history holding only greetings contributes nothing: the prompt is the trimmed message. */
  lemma GreetingOnlyHistory(message: string, turns: seq<Turn>)
    requires Trim(message) != []
    requires forall i :: 0 <= i < |turns| ==> IsGreetingTurn(turns[i])
    ensures PromptFor(Request(Str(message), Turns(turns))) == Trim(message)
  {
    DropOnlyGreetings(turns);
  }

  /** The replies the classification can produce are told apart from each
      other and from the replies for an invalid message or a missing credential. */
  lemma ErrorRepliesDistinct(k1: ErrorKind, k2: ErrorKind)
    ensures k1 != k2 ==> ErrorReply(k1) != ErrorReply(k2)
    ensures ErrorReply(k1).body != ErrorBody(InvalidMessageText)
    ensures ErrorReply(k1).body != ErrorBody(MissingKeyText)
  {
  }

  // ---------------------------------------------------------------------
  // The handlers

  /** The reply for what the provider call produced: success only for
      non-empty text; empty text raises the handler's own exception. */
  function Respond(outcome: ProviderOutcome): (r: Reply)
    ensures r.status == StatusOk <==> outcome.Produced? && outcome.text != []
    ensures r.status == StatusOk ==> r.body == Answer(outcome.text)
    ensures r.status != StatusOk ==> r.body.ErrorBody? && 400 <= r.status < 600
    ensures outcome == Produced([]) ==> r == Reply(StatusInternalError, ErrorBody(GenericText))
    ensures outcome.Raised? ==> r == ErrorReply(Classify(outcome.error))
  {
    match outcome
    case Produced(text) =>
      if text == [] then
        EmptyResponseIsUnknown();
        ErrorReply(Classify(EmptyResponse))
      else Reply(StatusOk, Answer(text))
    case Raised(e) => ErrorReply(Classify(e))
  }

  /** `POST /api/chat`. At most one provider call, and only for a valid
      message with the credential set; validation is checked before the
      credential; a 200 reply carries exactly the provider's non-empty text,
      every other reply carries only an error. */
  function Post(body: RequestBody, apiKey: Option<string>, provider: string -> ProviderOutcome): (r: Exchange)
    ensures |r.prompts| <= 1
    ensures body.Parsed? && !ValidMessage(body.request.message) ==>
      r == Exchange(Reply(StatusBadRequest, ErrorBody(InvalidMessageText)), [])
    ensures body.Parsed? && ValidMessage(body.request.message) && !KeyConfigured(apiKey) ==>
      r == Exchange(Reply(StatusInternalError, ErrorBody(MissingKeyText)), [])
    ensures |r.prompts| == 1 <==>
      body.Parsed? && ValidMessage(body.request.message) && KeyConfigured(apiKey) && !body.request.messages.Unusable?
    ensures |r.prompts| == 1 ==> r.prompts[0] == PromptFor(body.request) && r.reply == Respond(provider(r.prompts[0]))
    ensures r.reply.status == StatusOk <==> |r.prompts| == 1 && provider(r.prompts[0]).Produced? && provider(r.prompts[0]).text != []
    ensures r.reply.status != StatusOk ==> r.reply.body.ErrorBody? && 400 <= r.reply.status < 600
    ensures body.Unparseable? ==> r == Exchange(ErrorReply(Classify(body.error)), [])
    ensures body.Parsed? && ValidMessage(body.request.message) && KeyConfigured(apiKey) && body.request.messages.Unusable? ==>
      r == Exchange(ErrorReply(Classify(body.request.messages.error)), [])
  {
    match body
    case Unparseable(e) => Exchange(ErrorReply(Classify(e)), [])
    case Parsed(req) =>
      if !ValidMessage(req.message) then
        Exchange(Reply(StatusBadRequest, ErrorBody(InvalidMessageText)), [])
      else if !KeyConfigured(apiKey) then
        Exchange(Reply(StatusInternalError, ErrorBody(MissingKeyText)), [])
      else if req.messages.Unusable? then
        Exchange(ErrorReply(Classify(req.messages.error)), [])
      else
        var prompt := PromptFor(req);
        Exchange(Respond(provider(prompt)), [prompt])
  }

  /** `GET /api/chat`: always refused with 405 and an error body. */
  function Get(): (r: Reply)
    ensures r.status == StatusMethodNotAllowed
    ensures r.body.ErrorBody? && r.body.error != []
  {
    Reply(StatusMethodNotAllowed, ErrorBody(MethodNotAllowedText))
  }

  /** A provider exception ends in the reply its classification selects:
      quota words or a 429 give 429, network words or code give 503, a 403
      gives 403, and credential words give 500 whatever the status. */
  lemma ProviderErrorReply(req: Request, apiKey: Option<string>, provider: string -> ProviderOutcome, e: Thrown)
    requires ValidMessage(req.message) && KeyConfigured(apiKey) && !req.messages.Unusable?
    requires provider(PromptFor(req)) == Raised(e)
    ensures Post(Parsed(req), apiKey, provider).reply == ErrorReply(Classify(e))
    ensures !Mentions(e, "API_KEY") && !Mentions(e, "authentication") && Mentions(e, "quota") ==>
      Post(Parsed(req), apiKey, provider).reply == Reply(StatusTooManyRequests, ErrorBody(QuotaText))
    ensures !Mentions(e, "API_KEY") && !Mentions(e, "authentication") && !Mentions(e, "quota") && !Mentions(e, "limit") &&
            e.status != Some(429) && Mentions(e, "network") ==>
      Post(Parsed(req), apiKey, provider).reply == Reply(StatusServiceUnavailable, ErrorBody(NetworkText))
    ensures Classify(e) == AccessDenied <==> Post(Parsed(req), apiKey, provider).reply.status == StatusForbidden
    ensures Mentions(e, "API_KEY") && e.status == Some(429) ==>
      Post(Parsed(req), apiKey, provider).reply == Reply(StatusInternalError, ErrorBody(AuthErrorText))
  {
  }
}
