# Health chatbot website: a Dafny model of its logic

The site is a set of near-duplicate marketing pages for a health-information
chatbot. Most of it is markup. Its logic is small but real, and this project
models that logic as pure Dafny functions over immutable datatypes:

- **Chat relay `/api/chat`** (`ChatRoute`, `ChatHistory`, `ErrorClassification`).
  `POST` validates the message and checks the credential. It drops the
  widget's canned greeting from the history and renders the remaining turns
  as `role: content` lines. It builds the prompt, calls the language-model
  provider once, and maps the outcome or any exception to a JSON reply.
  The mapping is an ordered, first-match classification over the
  exception's message, `status` and `code`. `GET` is refused with 405.
  Status codes follow section 15 of RFC 9110; 429 follows section 4 of
  RFC 6585.
- **The older relay** in the second copy of the site (`LegacyChatRoute`):
  no validation, a fixed failure reply, and a body parse outside the
  handler's `try`.
- **The chat widget** (`ChatbotWidget`): a state machine over the displayed
  message list. Its greeting is the one the relay filters out. One full turn
  is proved end to end against the relay.
- **UI helpers**:
  - `ContactSupport`: call, text and WhatsApp links; the contact form's
    required-field check; the accessibility switches.
  - `BlogSection`: the category and search filter; the newsletter email
    check and subscription; the share link.
  - `AboutPage`: avatar initials, for both copies of the page.
  - `FeaturesPage`: the opening tab and the short tab label.
  - `FeatureColors`: the colour-class lookup of the second copy's features
    page.
  - `ContactPage`: the third copy's contact form record.

Shared vocabulary:

- `Wrappers`: `Option`.
- `Text`: JavaScript `trim` and its white-space set, `split`/`join` on a
  one-character separator, `includes`, ASCII case mapping.
- `Sequences`: order-preserving subsequences.
- `Api`: replies, thrown errors, provider outcomes.

The provider is a function parameter `string -> ProviderOutcome`. Each
exchange records the prompts handed to it, so "the provider is not called"
reads `prompts == []`. The credential is an `Option<string>`. The request
body arrives already parsed, as a datatype that includes the parse failure.

## Model

| member | source | states |
|---|---|---|
| Text.TrimRemovesOnlyEnds | src/app/api/chat/route.ts:16 | `trim()` returns a slice of the input with only white space before and after it, and it is the only such slice that is empty or has non-space characters at both ends: white space at the ends goes, everything else stays |
| Text.Utf16Length | src/components/blog-section.tsx:271 | `length` counts at least one and at most two code units per character |
| Text.Utf16LengthAppend | src/components/blog-section.tsx:271 | code units add up over concatenation |
| Text.Utf16LengthOfBmp | src/components/blog-section.tsx:271 | `length` equals the number of characters exactly when no character lies outside the Basic Multilingual Plane |
| Text.TrimIdempotent | src/app/api/chat/route.ts:16 | trimming twice is trimming once |
| Text.JoinSplit | src/components/about-page.tsx:241-242 | joining the pieces of `split(" ")` with the separator gives back the string |
| Text.WordsAround | src/components/about-page.tsx:241-243 | after `split(" ").filter(Boolean)`, a space separates words and runs of spaces never make a word |
| ChatHistory.DropGreeting | src/app/api/chat/route.ts:77-82 | the history filter never lengthens the history and keeps no greeting turn |
| ChatHistory.DropGreetingKeeps | src/app/api/chat/route.ts:77-82 | a turn survives the history filter if and only if it is in the history and is not an assistant turn whose content is exactly the greeting; user turns with that text survive |
| ChatHistory.DropGreetingOrder | src/app/api/chat/route.ts:77-82 | the surviving turns keep their original order |
| ChatHistory.DropGreetingAppend | src/app/api/chat/route.ts:77-82 | the filter decides turn by turn: filtering a concatenation concatenates the filtered parts |
| ChatHistory.DropGreetingSnoc | src/app/api/chat/route.ts:77-82 | a non-greeting turn added last survives as the last kept turn |
| ChatHistory.DropOnlyGreetings | src/app/api/chat/route.ts:77-82 | a history of greetings only keeps nothing |
| ChatHistory.Context | src/app/api/chat/route.ts:83-84 | the context is empty exactly when no turn is kept |
| ChatHistory.ContextSnoc | src/app/api/chat/route.ts:83-84 | lines are joined by a newline: a further turn adds a newline and its line |
| ChatHistory.ExampleHistoryKept | src/app/api/chat/route.ts:77-82 | greeting, user "A", assistant "B" keeps the last two turns |
| ChatHistory.ExampleContext | src/app/api/chat/route.ts:83-84 | those two turns render as `user: A\nassistant: B` |
| ErrorClassification.Classify | src/app/api/chat/route.ts:120-181 | the configuration reply is chosen exactly when the message mentions `API_KEY` or `authentication`; a 429 status gives the quota reply unless credential words came first; the generic reply never has status 429, 403 or 400 or code `NETWORK_ERROR` |
| ErrorClassification.ClassifyFollowsRules | src/app/api/chat/route.ts:120-181 | the handler's chain of tests is the ordered first-match reading of a five-row rule table (credential words; quota words or 429; network words or `NETWORK_ERROR`; 403; 400), with unknown as the default |
| ErrorClassification.ErrorReply | src/app/api/chat/route.ts:120-181 | every classified reply carries only an error; its status is 429 exactly for the quota kind, 503 exactly for network failure, 403 exactly for access denied, 400 exactly for a provider bad request, and 500 exactly for a credential problem or an unknown failure |
| ErrorClassification.CredentialWordsWin | src/app/api/chat/route.ts:120-130 | a message mentioning `API_KEY` gives the 500 configuration reply whatever its status or code, for instance a 429 |
| ErrorClassification.UnmatchedIsUnknown | src/app/api/chat/route.ts:174-181 | no keyword, no status and no code gives the generic kind |
| ErrorClassification.EmptyResponseMentionsNothing | src/app/api/chat/route.ts:98-100 | the handler's own "Empty response from AI model" mentions none of the six keywords |
| ErrorClassification.EmptyResponseIsUnknown | src/app/api/chat/route.ts:98-100 | that exception is classified as unknown, so it ends in the generic 500 |
| ChatRoute.PromptFor | src/app/api/chat/route.ts:73-90 | with no kept turn the prompt is the trimmed message; otherwise it is the preamble, the context, the "Current message" marker and the trimmed message; it always ends with the trimmed message |
| ChatRoute.PromptExample | src/app/api/chat/route.ts:73-90 | a concrete history with the greeting gives `Previous conversation:\nuser: A\nassistant: B\n\nCurrent message: C` |
| ChatRoute.PromptEndsWithLastTurn | src/app/api/chat/route.ts:76-90 | a non-greeting turn sent last ends the context, directly followed by the marker and the trimmed message |
| ChatRoute.GreetingOnlyHistory | src/app/api/chat/route.ts:75-90 | a history holding only greetings gives the trimmed message alone as the prompt |
| ChatRoute.ErrorRepliesDistinct | src/app/api/chat/route.ts:118-181 | different kinds give different replies, none equal to the invalid-message or missing-credential reply |
| ChatRoute.Respond | src/app/api/chat/route.ts:93-181 | 200 with exactly the text if and only if the provider produced non-empty text; empty text ends in the generic 500; a provider exception gets the reply its classification selects; every other reply is an error with a 4xx or 5xx status |
| ChatRoute.Post | src/app/api/chat/route.ts:7-182 | validation first (400, no provider call), then the credential (500, no call); at most one provider call, made exactly when both pass and the history is usable, with the prompt of `PromptFor`; 200 exactly for non-empty provider text; an unparseable body or an unusable history gets the classified reply of its exception, with no call |
| ChatRoute.ProviderErrorReply | src/app/api/chat/route.ts:108-181 | end to end, a provider exception gets its classified reply: "quota" without credential words gives 429, "network" without credential or quota signs gives 503, 403 exactly when classified as access denied, and "API_KEY" gives the 500 configuration reply even with status 429 |
| ChatRoute.Get | src/app/api/chat/route.ts:186-191 | `GET` always answers 405 with an error body |
| LegacyChatRoute.Post | ai-health-chatbot-website-main/src/app/api/chat/route.ts:4-33 | a parse failure escapes the handler; a missing credential gives 500 "Missing Gemini API key" without a call; otherwise one call with the message as parsed, a string message passed unchanged and every non-string value as the single `NonString` value; 200 with the text, even empty, when the provider produced one; 500 "Failed to generate content" for any failure |
| LegacyChatRoute.BlankMessageDiverges | ai-health-chatbot-website-main/src/app/api/chat/route.ts:5-25 | a blank message reaches the legacy provider and comes back as 200, where the current route answers 400 without a call |
| LegacyChatRoute.SamePromptWithoutHistory | ai-health-chatbot-website-main/src/app/api/chat/route.ts:21-25 | for a trimmed message without history both routes send the message itself, and a success of the current route is a success of the legacy one with the same text |
| ChatbotWidget.GreetingIsFiltered | src/components/chatbot-widget.tsx:21-28 | the widget's opening message is character for character the greeting the route filters out |
| ChatbotWidget.Send | src/components/chatbot-widget.tsx:42-69 | a blank input is ignored; otherwise exactly one user message with the untrimmed input is appended, the input is cleared, loading starts, and the payload is the input with every message including the new one |
| ChatbotWidget.AnswerContent | src/components/chatbot-widget.tsx:72-95 | `data.text`, else `data.response`, else the fallback, with empty strings falling through; the connection apology for a failed fetch; never empty |
| ChatbotWidget.Receive | src/components/chatbot-widget.tsx:76-97 | exactly one assistant message is appended and loading ends |
| ChatbotWidget.Deliver | src/components/chatbot-widget.tsx:72-76 | the widget reads the body only for a 2xx status |
| ChatbotWidget.Step | src/components/chatbot-widget.tsx:42-191 | one event appends at most one message and removes none; while a request is pending only its reply has an effect, since the input and button are disabled; at rest a reply changes nothing |
| ChatbotWidget.Run | src/components/chatbot-widget.tsx:42-191 | any sequence of events only appends, at most one message per event |
| ChatbotWidget.WellFormed | src/components/chatbot-widget.tsx:42-98 | in a well-formed widget the last message is the user's exactly while loading, and the assistant's at rest |
| ChatbotWidget.InitialWellFormed | src/components/chatbot-widget.tsx:21-30 | the mounted widget holds the greeting alone and is not loading |
| ChatbotWidget.SubmitKeepsWellFormed | src/components/chatbot-widget.tsx:42-55 | sending from rest appends a user message after an assistant one and starts loading |
| ChatbotWidget.ReceiveKeepsWellFormed | src/components/chatbot-widget.tsx:76-97 | a reply appends an assistant message after the user's and ends loading |
| ChatbotWidget.StepKeepsWellFormed | src/components/chatbot-widget.tsx:42-105 | every event keeps the list alternating from the greeting, loading exactly while a user message is unanswered, and only appends |
| ChatbotWidget.RunKeepsWellFormed | src/components/chatbot-widget.tsx:42-105 | so does any sequence of events |
| ChatbotWidget.PayloadTurns | src/components/chatbot-widget.tsx:63-69 | the payload history is the displayed history followed by the message being sent |
| ChatbotWidget.PayloadPrompt | src/components/chatbot-widget.tsx:63-69 | the prompt the route builds holds the kept earlier turns and the sent message as last turn, then the trimmed message |
| ChatbotWidget.InitialKeepsNothing | src/components/chatbot-widget.tsx:21-28 | the mounted history contributes no turn to the prompt |
| ChatbotWidget.FirstSendPrompt | src/components/chatbot-widget.tsx:63-69 | the first message sent appears twice in the prompt: as the user's turn and as the current message |
| ChatbotWidget.SentMessageEndsContext | src/components/chatbot-widget.tsx:63-69 | whatever the history, the sent message ends the context and is repeated as the current message |
| ChatbotWidget.TurnShape | src/components/chatbot-widget.tsx:42-98 | a completed send grows the list by exactly two: the user's message and one assistant message |
| ChatbotWidget.TurnAgainstRoute | src/components/chatbot-widget.tsx:57-97 | against the current route with the credential set: one provider call, and the assistant message is the provider's text for a 200 and the connection apology otherwise |
| ChatbotWidget.ReplyShown | src/components/chatbot-widget.tsx:72-80 | a 200 reply of the route shows its text; any error status shows the connection apology |
| ChatbotWidget.LegacyEmptyTextFallsBack | src/components/chatbot-widget.tsx:80 | a hypothetical pairing of this widget with the legacy route (ai-health-chatbot-website-main/src/app/api/chat/route.ts:24-25, whose own widget is not part of this model): an empty 200 text would show the "couldn't process" fallback |
| ContactSupport.KeepDialChars | src/components/contact-support.tsx:46 | `replace(/[^\d+]/g, "")` leaves only digits and `+`, never lengthens the input, and removes nothing exactly when it keeps the length |
| ContactSupport.TelLink | src/components/contact-support.tsx:56-59 | the call link is `tel:` followed by digits and `+` only, every digit and `+` of the number included |
| ContactSupport.SmsLink | src/components/contact-support.tsx:51-54 | the text link is `sms:` followed by digits and `+` only, every digit and `+` of the number included |
| ContactSupport.WaLink | src/components/contact-support.tsx:45-49 | the WhatsApp link is `https://wa.me/` followed by digits and `+` only, every digit of the number included |
| ContactSupport.KeepDialCharsMembers | src/components/contact-support.tsx:46 | a character survives `/[^\d+]/g` exactly when it is a digit or `+` in the input; the result holds only those |
| ContactSupport.KeepDialCharsAppend | src/components/contact-support.tsx:46 | the filter works character by character: it distributes over concatenation |
| ContactSupport.KeepDialCharsIdempotent | src/components/contact-support.tsx:46 | filtering twice is filtering once |
| ContactSupport.DropLeadingPlus | src/components/contact-support.tsx:47 | exactly one leading `+` is removed, and only when present |
| ContactSupport.LinksShareNumber | src/components/contact-support.tsx:51-59 | call and text links differ only in the scheme; what follows is the filtered number, digits and `+` only |
| ContactSupport.WaLinkDropsOnePlus | src/components/contact-support.tsx:45-49 | the WhatsApp link carries the filtered number less one leading `+`; further `+` signs remain |
| ContactSupport.DefaultDialChars | src/components/contact-support.tsx:31-32 | the default number filters to `+18005550199` |
| ContactSupport.DefaultLinks | src/components/contact-support.tsx:45-59 | the default links are `tel:+18005550199` and `https://wa.me/18005550199` |
| ContactSupport.FieldValue | src/components/contact-support.tsx:64-66 | a field counts as empty exactly when it is absent or all white space |
| ContactSupport.SubmitAsWritten | src/components/contact-support.tsx:61-84 | an incomplete form is refused without request or reset; a complete one is requested and reported sent, and reset only if the event still exposes the form |
| ContactSupport.SubmitAsWrittenAfterDispatch | src/components/contact-support.tsx:73-80 | as written, a complete form is reported both sent and failed and is not reset |
| ContactSupport.Submit | src/components/contact-support.tsx:61-84 | requested and reset if and only if all three fields are non-blank; one toast, sent or incomplete |
| ContactSupport.SubmitMatchesKeptTarget | src/components/contact-support.tsx:73-78 | the corrected handler does what the code does when the form is still reachable |
| ContactSupport.BlankNameRefused | src/components/contact-support.tsx:64-71 | a name of white space only is refused |
| ContactSupport.TogglesInvolutive | src/components/contact-support.tsx:353-373 | each switch negates only its own flag: two presses restore the settings, and the switches commute |
| BlogSection.FilterWithMembers | src/components/blog-section.tsx:257-264 | `filter` keeps an article exactly when the callback accepts it |
| BlogSection.FilterWithKeepsOrder | src/components/blog-section.tsx:257-264 | `filter` keeps the list order |
| BlogSection.FilteredAsWritten | src/components/blog-section.tsx:255-265 | as written, `filtered` is empty for every list, tab and search |
| BlogSection.EmptyPanelAlwaysShownAsWritten | src/components/blog-section.tsx:387-394 | as written, "No articles found" shows for every list, tab and search |
| BlogSection.FilteredAsWrittenDropsSelected | src/components/blog-section.tsx:257-264 | an article both tests accept is still not listed |
| BlogSection.Filtered | src/components/blog-section.tsx:255-265 | corrected: never longer than the list, and every listed article matches the tab and the search |
| BlogSection.FilteredSelects | src/components/blog-section.tsx:255-265 | corrected: an article is listed if and only if its category matches the tab and its title or excerpt contains the normalized search; order is kept |
| BlogSection.FilteredAllBlank | src/components/blog-section.tsx:256-263 | corrected: the "All" tab with a blank search lists every article |
| BlogSection.QueryNormalized | src/components/blog-section.tsx:256 | the search ignores surrounding white space and holds no upper-case ASCII letter |
| BlogSection.EmptyPanelWhenNothingSelected | src/components/blog-section.tsx:387-394 | corrected: "No articles found" shows exactly when no article is selected |
| BlogSection.MatchesEmailPattern | src/components/blog-section.tsx:271 | a string the pattern accepts has at least five characters, an `@` that is not first, and a `.` |
| BlogSection.EmailPatternCharacterized | src/components/blog-section.tsx:270-271 | the pattern accepts exactly: no white space, one `@`, not first, and a domain with a `.` that is neither its first nor its last character |
| BlogSection.ValidEmailCharacterized | src/components/blog-section.tsx:269-271 | an address is accepted exactly when, trimmed, it has the pattern's shape and at most 254 UTF-16 code units; it then has at most 254 characters |
| BlogSection.Subscribe | src/components/blog-section.tsx:267-292 | an invalid address leaves the box and calls nothing; a valid one that reaches the handler is passed trimmed to the callback once; the box is cleared on success or without a callback and kept on failure |
| BlogSection.SubscribedAddressIsClean | src/components/blog-section.tsx:269-281 | the address handed on matches the pattern, has at most 254 UTF-16 code units and has no surrounding white space |
| BlogSection.ShareLink | src/components/blog-section.tsx:156-177 | the tweet link is the intent URL and the encoded title, followed by `%20` and the encoded URL only when that is non-empty |
| BlogSection.ShareLinkHasUrlPart | src/components/blog-section.tsx:156-177 | with an encoder that sends only the empty string to the empty string, the link carries a URL part exactly when a non-empty URL is given |
| BlogSection.CardShareLink | src/components/blog-section.tsx:221 | article cards pass no URL, so the link carries the encoded title alone |
| AboutPage.Initials | src/components/about-page.tsx:240-247 | the initials have at most two characters, each already upper-case |
| AboutPage.InitialsShape | src/components/about-page.tsx:240-247 | one character per word for at most two words: the i-th is the upper-cased first character of the i-th non-empty word |
| AboutPage.BlankNameHasNoInitials | src/components/about-page.tsx:240-247 | an empty or all-space name has no initials |
| AboutPage.ExtraSpacesIgnored | src/components/about-page.tsx:241-243 | doubling a space does not change the initials |
| AboutPage.LaterWordsIgnored | ai-health-chatbot-website-main/src/components/about-page.tsx:327-334 | words after the second do not show |
| AboutPage.StateHealthInitials | ai-health-chatbot-website-main/src/components/about-page.tsx:29 | "State Health Dept." gives SH |
| AboutPage.SevaCareInitials | ai-health-chatbot-website-main/src/components/about-page.tsx:30 | "SevaCare Foundation" gives SF |
| AboutPage.RuralHealthInitials | ai-health-chatbot-website-main/src/components/about-page.tsx:31 | "Rural Health India" gives RH |
| AboutPage.CommunityClinicsInitials | ai-health-chatbot-website-main/src/components/about-page.tsx:32 | "Community Clinics Network" gives CC |
| AboutPage.Badges | ai-health-chatbot-website-main/src/components/about-page.tsx:275-280 | one badge per partner, in list order, each the initials of that partner's name |
| AboutPage.PartnerBadges | ai-health-chatbot-website-main/src/components/about-page.tsx:275-280 | the partner list shows SH, SF, RH, CC, one per partner in list order |
| FeaturesPage.DefaultTab | src/components/features-page.tsx:234-237 | the opening tab is always a feature id when there is a feature, and the requested one whenever it names a feature |
| FeaturesPage.DefaultTabChoice | src/components/features-page.tsx:234-237 | otherwise it is the first feature's id; a request other than the first opens as asked exactly when it names a feature |
| FeaturesPage.DefaultTabIdempotent | src/components/features-page.tsx:234-237 | requesting the tab that was chosen chooses it again |
| FeaturesPage.ShippedDefaultTabs | src/components/features-page.tsx:234-237 | with the shipped features: no request opens "preventive", "alerts" opens "alerts", an unknown id opens "preventive" |
| FeaturesPage.MobileLabel | src/components/features-page.tsx:268 | the short label is a start of the title holding no space |
| FeaturesPage.MobileLabelShape | src/components/features-page.tsx:268 | the short label is the longest start of the title without a space |
| FeaturesPage.MobileLabelFirstWord | src/components/features-page.tsx:268 | a title's first word, space-free, is its label |
| FeaturesPage.OutbreakAlertsLabel | src/components/features-page.tsx:94 | "Real-time Outbreak Alerts" is labelled "Real-time" |
| FeatureColors.TableFollowsScheme | project/project/src/pages/FeaturesPage.tsx:94-101 | every entry of colour c is `bg-c-100`, `text-c-600`, `hover:bg-c-200` |
| FeatureColors.PropertyLookup | project/project/src/pages/FeaturesPage.tsx:94-102 | `colors[color]` finds an own entry exactly for a table key, and that entry follows the naming scheme; it finds an inherited member exactly for the other names every object inherits |
| FeatureColors.ColorClassesAsWritten | project/project/src/pages/FeaturesPage.tsx:93-103 | as written, a table key gets its entry and a name that is neither a key nor an inherited member gets blue |
| FeatureColors.AsWrittenInheritedName | project/project/src/pages/FeaturesPage.tsx:102 | as written, "toString" is no key, yet it does not fall back to blue |
| FeatureColors.ColorClassesFor | project/project/src/pages/FeaturesPage.tsx:93-103 | corrected: a key gets the classes of its own name, every other name the blue classes |
| FeatureColors.ClassesAlwaysFromPalette | project/project/src/pages/FeaturesPage.tsx:93-103 | every name gets the classes of some table colour |
| FeatureColors.ShippedColorsKnown | project/project/src/pages/FeaturesPage.tsx:29-102 | every shipped card colour is a key, so the fallback is never taken and the code and its correction agree there |
| ContactPage.Set | project-bolt-sb1-evo3kdyz/project/src/pages/ContactPage.tsx:17-20 | the named field takes the value; every other field is unchanged |
| ContactPage.InputChange | project-bolt-sb1-evo3kdyz/project/src/pages/ContactPage.tsx:15-21 | typing changes only the named field and leaves the thank-you flag |
| ContactPage.LastInputWins | project-bolt-sb1-evo3kdyz/project/src/pages/ContactPage.tsx:15-21 | typing into a field twice keeps the last value |
| ContactPage.InputsCommute | project-bolt-sb1-evo3kdyz/project/src/pages/ContactPage.tsx:15-21 | edits of different fields commute |
| ContactPage.InputOfSameValue | project-bolt-sb1-evo3kdyz/project/src/pages/ContactPage.tsx:15-21 | typing the current value changes nothing |
| ContactPage.Submit | project-bolt-sb1-evo3kdyz/project/src/pages/ContactPage.tsx:23-28 | a submission raises the thank-you flag and clears all five fields |
| ContactPage.TimerExpired | project-bolt-sb1-evo3kdyz/project/src/pages/ContactPage.tsx:27 | the timer lowers the thank-you flag and leaves whatever was typed since |
| ContactPage.SubmitThenTimerRestoresInitial | project-bolt-sb1-evo3kdyz/project/src/pages/ContactPage.tsx:5-28 | a submission and then the timer return any state to the initial one |
| ContactPage.SubmitAcceptsBlankForm | project-bolt-sb1-evo3kdyz/project/src/pages/ContactPage.tsx:23-28 | the handler itself checks nothing: a blank form that reaches it is accepted |

## Left out

- The language-model SDK (`GoogleGenerativeAI`, `generateContent`, `response.text()`): a network client; it is the `provider` parameter.
- `process.env`, `req.json()` and `NextResponse`: the credential is an `Option<string>`, the body a parsed datatype with a parse-failure case, the reply a status and a body.
- The system-instruction text and model names: constants without logic.
- `console` logging in both routes.
- Timers and async plumbing: the 900 ms and 700 ms simulated waits, the widget's 1500 ms fade-in, and `fetch` itself. A reply is a `Response` value. The 3000 ms thank-you timer is an explicit `ContactPage.TimerExpired` step.
- Toast rendering: toasts are `Notice` values. `window.open` is left out; the link it opens is modelled.
- The preferred-channel radio and `isVisible`: they only change how sections look.
- BlogSection.Subscribe: models the handler only. The newsletter form has no `noValidate` and its input has `type="email"`, so the browser's own e-mail check runs before `handleSubscribe` and refuses some addresses the pattern accepts (for instance one with a non-ASCII local part or with two dots in a row after the `@`); that check is not modelled, so for such an address the page calls nothing where the model calls the callback.
- BlogSection.Subscribe: models one submission at a time. The submit button is `disabled` while `submitting` is set, so a second submission cannot start while one is pending; the busy flag itself is not modelled.
- ContactSupport.Submit: models one submission at a time, for the same reason: the send button is `disabled` while `submitting` is set. The same holds for `ContactSupport.SubmitAsWritten`.
- Message ids and timestamps, article ids, dates, images and `formatDate`, team photos and the partner tags' rendering: display only.
- Text.ToLower: maps ASCII letters only, because full Unicode case mapping is library behaviour outside this model.
- AboutPage.Initials: upper-cases with `UpperChar`, ASCII only, for the same reason. A character whose upper case has two characters is not covered. A word that starts with a character outside the Basic Multilingual Plane is also not covered: JavaScript's `n[0]` is then the first half of a surrogate pair, which a Dafny `char` cannot hold, and the model takes the whole character.
- AboutPage.InitialsShape: the i-th initial is the first character of the i-th word; for a word that starts outside the Basic Multilingual Plane the source gives a lone high surrogate instead, as stated for `AboutPage.Initials`.
- BlogSection.ShareLink: `encodeURIComponent` is a parameter, and `CardShareLink` assumes it maps the empty string to the empty string.
- ChatHistory.DropGreeting: a turn's `role` and `content` are modelled as the strings they render to. The source compares them with `!==`, so a non-string value is never equal to the greeting even when it renders the same; for instance `content: [greeting]` is kept by the source and rendered as the greeting line, while the model, which can only write it as the greeting string, drops it. The strict comparison against non-string values is not modelled.
- LegacyChatRoute.Post: every non-string `message` (an array of parts, a request object, a number, `null`) is the single `ChatRoute.Field.NonString` value, and the provider sees only that value. The provider library treats an array of parts and a request object differently, and the model does not tell them apart; the promise "the message exactly as parsed" holds for string messages only.
- ChatRoute.Post: `History.Unusable` stands for any `messages` value on which the history filter or the rendering throws. This includes a non-array with a positive length, on which `.filter` throws, and an array holding `null`, `undefined` or another element whose `role` cannot be read. The exception is modelled only as a thrown value, which the `catch` classifies.
- ContactPage.Submit: models the handler only. The form has no `noValidate`, and its name, email, subject and message inputs are `required`, so the browser refuses to submit a form with one of them empty before `handleSubmit` runs; that browser check is not modelled, and `ContactPage.SubmitAcceptsBlankForm` speaks of a form that does reach the handler.
- ContactPage.InputChange: covers the five named inputs of the form; an input with another `name` would add a key, and the page has none.
- ContactSupport.FieldValue: `FormData.get` returning a `File` is not modelled; the form has only text inputs.
- FeatureColors.PropertyLookup: the inherited members are the standard members of `Object.prototype`; a prototype extended at run time is not modelled.
- ChatbotWidget.Step: events reach the input and the button only while they are enabled, as the markup makes them. Concurrent sends interleaving their replies cannot happen for the same reason.
- The markup-only pages (headers, footers, hero sections, the other copies' home, blog and about pages) have no logic beyond what is modelled here.

## Findings

| source | as written | input that shows it | evidently intended | confidence | as-written member | corrected member |
|---|---|---|---|---|---|---|
| src/components/blog-section.tsx:257-264 | the `filter` callback computes `matchesCategory` and `matchesQuery` but returns nothing, so every article is dropped | any article, e.g. the "All" tab with an empty search | return `matchesCategory && matchesQuery` | high; not executed | BlogSection.FilteredAsWrittenDropsSelected | BlogSection.FilteredSelects |
| src/components/contact-support.tsx:78 | `e.currentTarget.reset()` runs after the `await`, when React has already cleared `currentTarget`; the call throws inside the `try` after the success toast | any complete form, e.g. name "A", contact "B", message "C" | keep the form element before the `await` and reset it; one success toast | medium; not executed | ContactSupport.SubmitAsWrittenAfterDispatch | ContactSupport.Submit |
| project/project/src/pages/FeaturesPage.tsx:102 | `colors[color] \|\| colors.blue` finds members every object inherits, so such a name does not fall back to blue | colour "toString" (no shipped card uses it) | test for an own key, then fall back to blue | low; not executed | FeatureColors.AsWrittenInheritedName | FeatureColors.ColorClassesFor |
