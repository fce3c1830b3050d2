/** The older chat endpoint kept in the second copy of the site: it reads the
    body before anything else, refuses when the credential is missing, hands
    the raw `message` value to the provider without any validation, and
    answers either with the provider's text (even an empty one) or with one
    fixed failure message. */
module LegacyChatRoute {
  import opened Wrappers
  import opened Text
  import opened Api
  import ChatRoute

  /** The outcome of `await req.json()`: the `message` property, or the
      exception the parse raised. */
  datatype LegacyBody = Parsed(message: ChatRoute.Field) | Unparseable(error: Thrown)

  /** The parse sits outside the handler's `try`, so its exception is not
      turned into a reply by the handler: it escapes to the framework. */
  datatype Outcome = Responded(reply: Reply) | Escaped(error: Thrown)

  /** The outcome, together with every value handed to the provider. */
  datatype LegacyExchange = LegacyExchange(outcome: Outcome, prompts: seq<ChatRoute.Field>)

  const MissingKeyText := "Missing Gemini API key"
  const FailureText := "Failed to generate content"

  /** `POST` of the legacy route. The provider is called at most once, with
      the `message` value exactly as parsed, and only when the body parsed and
      the credential is set. The reply is 200 with the provider's text
      whenever the provider produced text, empty or not, and otherwise 500. */
  function Post(body: LegacyBody, apiKey: Option<string>, provider: ChatRoute.Field -> ProviderOutcome): (r: LegacyExchange)
    ensures |r.prompts| <= 1
    ensures r.outcome.Escaped? <==> body.Unparseable?
    ensures body.Unparseable? ==> r == LegacyExchange(Escaped(body.error), [])
    ensures body.Parsed? && !KeyConfigured(apiKey) ==>
      r == LegacyExchange(Responded(Reply(StatusInternalError, ErrorBody(MissingKeyText))), [])
    ensures |r.prompts| == 1 <==> body.Parsed? && KeyConfigured(apiKey)
    ensures |r.prompts| == 1 ==> r.prompts[0] == body.message
    ensures r.outcome.Responded? ==> r.outcome.reply.status in {StatusOk, StatusInternalError}
    ensures r.outcome.Responded? && r.outcome.reply.status == StatusOk <==>
      |r.prompts| == 1 && provider(r.prompts[0]).Produced?
    ensures r.outcome.Responded? && r.outcome.reply.status == StatusOk ==>
      r.outcome.reply.body == BareText(provider(r.prompts[0]).text)
    ensures |r.prompts| == 1 && provider(r.prompts[0]).Raised? ==>
      r.outcome == Responded(Reply(StatusInternalError, ErrorBody(FailureText)))
  {
    match body
    case Unparseable(e) => LegacyExchange(Escaped(e), [])
    case Parsed(message) =>
      if !KeyConfigured(apiKey) then
        LegacyExchange(Responded(Reply(StatusInternalError, ErrorBody(MissingKeyText))), [])
      else
        var reply :=
          match provider(message)
          case Produced(text) => Reply(StatusOk, BareText(text))
          case Raised(_) => Reply(StatusInternalError, ErrorBody(FailureText));
        LegacyExchange(Responded(reply), [message])
  }

  /** The legacy route checks nothing about the message: with the credential
      set, a blank message reaches the provider and its text comes back with
      200, where the current route answers 400 without calling the provider. */
  lemma BlankMessageDiverges(m: string, apiKey: Option<string>,
                             provider: ChatRoute.Field -> ProviderOutcome, current: string -> ProviderOutcome)
    requires AllSpace(m) && KeyConfigured(apiKey)
    requires provider(ChatRoute.Str(m)).Produced?
    ensures Post(Parsed(ChatRoute.Str(m)), apiKey, provider).outcome
         == Responded(Reply(StatusOk, BareText(provider(ChatRoute.Str(m)).text)))
    ensures ChatRoute.Post(ChatRoute.Parsed(ChatRoute.Request(ChatRoute.Str(m), ChatRoute.NoHistory)), apiKey, current)
         == ChatRoute.Exchange(Reply(StatusBadRequest, ErrorBody(ChatRoute.InvalidMessageText)), [])
  {
  }

  /** For a message that is already trimmed and no history, both routes send
      the message itself; when the provider answers the same text, a success of
      the current route is a success of the legacy route with that text. */
  lemma SamePromptWithoutHistory(m: string, apiKey: Option<string>,
                                 provider: ChatRoute.Field -> ProviderOutcome, current: string -> ProviderOutcome)
    requires m != [] && !IsSpace(m[0]) && !IsSpace(m[|m| - 1])
    requires KeyConfigured(apiKey)
    requires current(m) == provider(ChatRoute.Str(m))
    ensures ChatRoute.Post(ChatRoute.Parsed(ChatRoute.Request(ChatRoute.Str(m), ChatRoute.NoHistory)), apiKey, current).prompts == [m]
    ensures Post(Parsed(ChatRoute.Str(m)), apiKey, provider).prompts == [ChatRoute.Str(m)]
    ensures ChatRoute.Post(ChatRoute.Parsed(ChatRoute.Request(ChatRoute.Str(m), ChatRoute.NoHistory)), apiKey, current).reply.status == StatusOk ==>
      Post(Parsed(ChatRoute.Str(m)), apiKey, provider).outcome == Responded(Reply(StatusOk, BareText(current(m).text)))
  {
    TrimFixpoint(m);
    var req := ChatRoute.Request(ChatRoute.Str(m), ChatRoute.NoHistory);
    assert ChatRoute.ValidMessage(req.message);
    assert ChatRoute.PromptFor(req) == m;
  }
}
