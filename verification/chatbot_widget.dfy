/** The floating chat widget: the message list it shows, the input box, the
    loading flag, what it posts to `/api/chat` when the user sends, and how it
    turns the reply into the assistant's next message. */
module ChatbotWidget {
  import opened Wrappers
  import opened Text
  import opened Api
  import opened ChatHistory
  import ChatRoute

  datatype Role = User | Assistant

  /** A displayed message; its id and timestamp only key and decorate the list. */
  datatype Message = Message(role: Role, content: string)

  datatype Widget = Widget(messages: seq<Message>, input: string, loading: bool)

  const WidgetGreeting := "Hi! I'm your Vital AI health assistant. How can I help you today?"
  const NoAnswerText := "Sorry, I couldn't process your request."
  const ConnectionText := "Sorry, I'm having trouble connecting. Please try again."

  /** The widget as mounted: the greeting alone, an empty input, not loading. */
  const Initial := Widget([Message(Assistant, WidgetGreeting)], "", false)

  /** The greeting the widget opens with is the one the chat route filters out. */
  lemma GreetingIsFiltered()
    ensures WidgetGreeting == Greeting
    ensures IsGreetingTurn(Turn("assistant", WidgetGreeting))
  {
  }

  function RoleName(r: Role): string {
    match r
    case User => "user"
    case Assistant => "assistant"
  }

  /** `.map(m => ({ role: m.role, content: m.content }))` */
  function ToTurns(ms: seq<Message>): (ts: seq<Turn>)
    ensures |ts| == |ms|
    ensures forall i :: 0 <= i < |ms| ==> ts[i] == Turn(RoleName(ms[i].role), ms[i].content)
  {
    seq(|ms|, i requires 0 <= i < |ms| => Turn(RoleName(ms[i].role), ms[i].content))
  }

  /** The JSON body of the request: the raw input and the whole history,
      including the message being sent. */
  datatype Payload = Payload(message: string, messages: seq<Turn>)

  /** How the route sees the payload once parsed. */
  function RequestOf(p: Payload): ChatRoute.Request {
    ChatRoute.Request(ChatRoute.Str(p.message), ChatRoute.Turns(p.messages))
  }

  datatype SendResult = Ignored | Sending(next: Widget, payload: Payload)

  /** `handleSendMessage` up to the `fetch`: a blank input does nothing;
      otherwise the untrimmed input is appended as a user message, the input
      is cleared, loading starts, and the payload carries the input and every
      message including the new one. */
  function Send(w: Widget): (r: SendResult)
    ensures r.Ignored? <==> AllSpace(w.input)
    ensures r.Sending? ==> r.next.input == [] && r.next.loading
    ensures r.Sending? ==> |r.next.messages| == |w.messages| + 1 && r.next.messages[..|w.messages|] == w.messages
    ensures r.Sending? ==> r.next.messages[|w.messages|] == Message(User, w.input)
    ensures r.Sending? ==> r.payload.message == w.input && r.payload.messages == ToTurns(r.next.messages)
  {
    if Trim(w.input) == [] then Ignored
    else
      var user := Message(User, w.input);
      var next := w.messages + [user];
      Sending(Widget(next, "", true), Payload(w.input, ToTurns(next)))
  }

  /** `disabled={!inputValue.trim() || isLoading}` on the send button. */
  predicate CanSend(w: Widget) {
    Trim(w.input) != [] && !w.loading
  }

  /** `e.key === 'Enter' && !e.shiftKey` */
  predicate IsSendKey(key: string, shift: bool) {
    key == "Enter" && !shift
  }

  /** What the widget learns from `fetch`: a response that is not `ok`, an
      exception, or the parsed JSON's `text` and `response` properties. */
  datatype Response = NotOk | Threw | Ok(text: Option<string>, response: Option<string>)

  /** `data.text || data.response || fallback`, with JavaScript truthiness:
      a missing or empty string falls through. */
  function AnswerContent(resp: Response): (content: string)
    ensures content != []
    ensures resp.Ok? && resp.text.Some? && resp.text.value != [] ==> content == resp.text.value
    ensures resp.Ok? && resp.text.GetOr([]) == [] && resp.response.Some? && resp.response.value != [] ==>
      content == resp.response.value
    ensures resp.Ok? && resp.text.GetOr([]) == [] && resp.response.GetOr([]) == [] ==> content == NoAnswerText
    ensures !resp.Ok? ==> content == ConnectionText
  {
    match resp
    case Ok(text, response) =>
      if text.GetOr([]) != [] then text.value
      else if response.GetOr([]) != [] then response.value
      else NoAnswerText
    case _ => ConnectionText
  }

  /** The rest of `handleSendMessage`: one assistant message is appended and
      loading ends; the input is left alone. */
  function Receive(w: Widget, resp: Response): (r: Widget)
    ensures r.messages == w.messages + [Message(Assistant, AnswerContent(resp))]
    ensures r.input == w.input && !r.loading
  {
    Widget(w.messages + [Message(Assistant, AnswerContent(resp))], w.input, false)
  }

  /** What `fetch` and `response.json()` make of a reply of the chat route:
      `ok` is a 2xx status; both success bodies carry `text` and neither
      carries `response`. */
  function Deliver(reply: Reply): (resp: Response)
    ensures resp.Ok? <==> 200 <= reply.status < 300
  {
    if 200 <= reply.status < 300 then
      match reply.body
      case Answer(t) => Ok(Some(t), None)
      case BareText(t) => Ok(Some(t), None)
      case ErrorBody(_) => Ok(None, None)
    else NotOk
  }

  /** A user event. Typing, clicking and the Enter key reach the widget only
      while it is not loading, since the input and the button are then
      disabled; a reply arrives only while a request is pending. */
  datatype Event = Type(text: string) | Click | KeyPress(key: string, shift: bool) | Arrive(resp: Response)

  /** The widget after `handleSendMessage` has started the request. */
  function Submitted(w: Widget): Widget {
    match Send(w)
    case Sending(next, _) => next
    case Ignored => w
  }

  /** One event. While a request is pending only its reply has an effect;
      at rest a reply has none. Messages are only appended, one at most. */
  function Step(w: Widget, ev: Event): (r: Widget)
    ensures w.messages <= r.messages && |r.messages| <= |w.messages| + 1
    ensures w.loading && !ev.Arrive? ==> r == w
    ensures !w.loading && ev.Arrive? ==> r == w
  {
    match ev
    case Type(text) => if w.loading then w else w.(input := text)
    case Click => if CanSend(w) then Submitted(w) else w
    case KeyPress(key, shift) => if w.loading || !IsSendKey(key, shift) then w else Submitted(w)
    case Arrive(resp) => if w.loading then Receive(w, resp) else w
  }

  /** The events in order; each adds at most one message to the list. */
  function Run(w: Widget, evs: seq<Event>): (r: Widget)
    ensures w.messages <= r.messages && |r.messages| <= |w.messages| + |evs|
    decreases |evs|
  {
    if evs == [] then w else Run(Step(w, evs[0]), evs[1..])
  }

  /** The shape of the list the widget keeps: the greeting first, then user and
      assistant messages in turn; at rest the last message is the assistant's,
      while loading it is the user's. */
  predicate WellFormed(w: Widget): (b: bool)
    ensures b ==> |w.messages| >= 1 && w.messages[|w.messages| - 1].role == if w.loading then User else Assistant
  {
    |w.messages| >= 1 &&
    w.messages[0] == Message(Assistant, WidgetGreeting) &&
    (forall i :: 0 <= i < |w.messages| ==> w.messages[i].role == if i % 2 == 0 then Assistant else User) &&
    (w.loading <==> |w.messages| % 2 == 0)
  }

  lemma InitialWellFormed()
    ensures WellFormed(Initial)
  {
  }

  /** Sending from a resting widget appends the user's message and starts loading. */
  lemma SubmitKeepsWellFormed(w: Widget)
    requires WellFormed(w) && !w.loading
    ensures WellFormed(Submitted(w))
    ensures w.messages <= Submitted(w).messages
  {
    if Send(w).Sending? {
      var ms := Submitted(w).messages;
      assert ms == w.messages + [Message(User, w.input)];
      assert ms[..|w.messages|] == w.messages;
      assert ms[|w.messages|].role == User;
    }
  }

  /** A reply to a pending request appends the assistant's message and ends loading. */
  lemma ReceiveKeepsWellFormed(w: Widget, resp: Response)
    requires WellFormed(w) && w.loading
    ensures WellFormed(Receive(w, resp))
    ensures w.messages <= Receive(w, resp).messages
  {
    var ms := Receive(w, resp).messages;
    assert ms[..|w.messages|] == w.messages;
    assert ms[|w.messages|].role == Assistant;
  }

  /** Every event keeps the list well formed and only ever appends to it. */
  lemma StepKeepsWellFormed(w: Widget, ev: Event)
    requires WellFormed(w)
    ensures WellFormed(Step(w, ev))
    ensures w.messages <= Step(w, ev).messages
  {
    match ev
    case Type(_) =>
    case Click =>
      if CanSend(w) {
        SubmitKeepsWellFormed(w);
      }
    case KeyPress(key, shift) =>
      if !w.loading && IsSendKey(key, shift) {
        SubmitKeepsWellFormed(w);
      }
    case Arrive(resp) =>
      if w.loading {
        ReceiveKeepsWellFormed(w, resp);
      }
  }

  /** Any sequence of events keeps the list well formed and only appends. */
  lemma {:induction false} RunKeepsWellFormed(w: Widget, evs: seq<Event>)
    requires WellFormed(w)
    ensures WellFormed(Run(w, evs))
    ensures w.messages <= Run(w, evs).messages
    decreases |evs|
  {
    if evs != [] {
      StepKeepsWellFormed(w, evs[0]);
      RunKeepsWellFormed(Step(w, evs[0]), evs[1..]);
    }
  }

  /** The history the payload carries is the displayed one followed by the
      message being sent. */
  lemma PayloadTurns(w: Widget)
    requires !AllSpace(w.input)
    ensures Send(w).Sending?
    ensures Send(w).payload.messages == ToTurns(w.messages) + [Turn("user", w.input)]
  {
    var next := w.messages + [Message(User, w.input)];
    assert ToTurns(next) == ToTurns(w.messages) + [Turn("user", w.input)];
  }

  /** The prompt the route builds from the payload: the kept earlier turns and
      the sent message as the last turn of the context, then the message again. */
  lemma PayloadPrompt(w: Widget)
    requires !AllSpace(w.input)
    ensures Send(w).Sending?
    ensures ChatRoute.PromptFor(RequestOf(Send(w).payload)) ==
      ChatRoute.Preamble + Context(DropGreeting(ToTurns(w.messages)) + [Turn("user", w.input)])
        + ChatRoute.CurrentMarker + Trim(w.input)
  {
    PayloadTurns(w);
    var u := Turn("user", w.input);
    DropGreetingSnoc(ToTurns(w.messages), u);
    assert ChatRoute.KeptTurns(RequestOf(Send(w).payload).messages) == DropGreeting(ToTurns(w.messages)) + [u];
  }

  /** The mounted widget's history is the greeting alone, which the route drops. */
  lemma InitialKeepsNothing(w: Widget)
    requires w.messages == Initial.messages
    ensures DropGreeting(ToTurns(w.messages)) == []
  {
    var g := Turn("assistant", WidgetGreeting);
    assert ToTurns(w.messages) == [g];
    assert [g][1..] == [];
  }

  /** The first message sent from the freshly mounted widget: the greeting is
      dropped by the route, and the message appears twice in the prompt, once
      as the user's turn of the context and once trimmed as the current message. */
  lemma FirstSendPrompt(m: string)
    requires !AllSpace(m)
    ensures Send(Initial.(input := m)).Sending?
    ensures ChatRoute.PromptFor(RequestOf(Send(Initial.(input := m)).payload))
         == ChatRoute.Preamble + Render(Turn("user", m)) + ChatRoute.CurrentMarker + Trim(m)
  {
    var w := Initial.(input := m);
    PayloadPrompt(w);
    InitialKeepsNothing(w);
    ContextSnoc([], Turn("user", m));
    assert [] + [Turn("user", m)] == [Turn("user", m)];
  }

  /** Whatever the history, the message being sent ends the context as a user
      turn and is then repeated as the current message. */
  lemma SentMessageEndsContext(w: Widget)
    requires !AllSpace(w.input)
    ensures Send(w).Sending?
    ensures EndsWith(ChatRoute.PromptFor(RequestOf(Send(w).payload)),
                     Render(Turn("user", w.input)) + ChatRoute.CurrentMarker + Trim(w.input))
  {
    PayloadTurns(w);
    ChatRoute.PromptEndsWithLastTurn(RequestOf(Send(w).payload), ToTurns(w.messages), Turn("user", w.input));
  }

  /** A send followed by any response adds exactly the user's message and one
      assistant message, and leaves the list well formed. */
  lemma TurnShape(w: Widget, resp: Response)
    requires WellFormed(w) && CanSend(w)
    ensures Send(w).Sending?
    ensures var w' := Receive(Send(w).next, resp);
            WellFormed(w') && |w'.messages| == |w.messages| + 2 &&
            w'.messages[|w.messages|] == Message(User, w.input) &&
            w'.messages[|w.messages| + 1] == Message(Assistant, AnswerContent(resp))
  {
    SubmitKeepsWellFormed(w);
    ReceiveKeepsWellFormed(Send(w).next, resp);
  }

  /** One full turn against the current route with the credential set: the
      route calls the provider once, and the assistant message the widget adds
      is the provider's text when the route answers 200 and the connection
      apology otherwise; loading ends either way. */
  lemma TurnAgainstRoute(w: Widget, apiKey: Option<string>, provider: string -> ProviderOutcome)
    requires WellFormed(w) && CanSend(w) && KeyConfigured(apiKey)
    ensures Send(w).Sending?
    ensures var ex := ChatRoute.Post(ChatRoute.Parsed(RequestOf(Send(w).payload)), apiKey, provider);
            var w' := Receive(Send(w).next, Deliver(ex.reply));
            |ex.prompts| == 1 && WellFormed(w') && |w'.messages| == |w.messages| + 2 &&
            w'.messages[|w.messages|] == Message(User, w.input) &&
            w'.messages[|w.messages| + 1] ==
              Message(Assistant, if ex.reply.status == StatusOk then provider(ex.prompts[0]).text else ConnectionText)
  {
    var ex := ChatRoute.Post(ChatRoute.Parsed(RequestOf(Send(w).payload)), apiKey, provider);
    assert ChatRoute.ValidMessage(RequestOf(Send(w).payload).message);
    ReplyShown(ex.reply, provider(ex.prompts[0]));
    TurnShape(w, Deliver(ex.reply));
  }

  /** What the widget shows for a reply of the current route: the answer for a
      200, the connection apology for anything else. */
  lemma ReplyShown(reply: Reply, outcome: ProviderOutcome)
    requires reply.status == StatusOk ==> reply == ChatRoute.Respond(outcome)
    requires reply.status == StatusOk || 400 <= reply.status < 600
    ensures AnswerContent(Deliver(reply)) == if reply.status == StatusOk then outcome.text else ConnectionText
  {
  }

  /** A hypothetical pairing: this widget is not the legacy copy's own widget,
      which is not part of this model. Were it to talk to the legacy route, an
      empty text from the provider would arrive as a 200 reply the widget
      cannot show, and the fallback apology would be shown instead. */
  lemma LegacyEmptyTextFallsBack()
    ensures AnswerContent(Deliver(Reply(StatusOk, BareText([])))) == NoAnswerText
  {
  }
}
