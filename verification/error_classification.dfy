/** How the chat relay endpoint classifies a caught exception: an ordered
    first-match test over the message text, the `status` and the `code`, and
    the JSON reply for each category. */
module ErrorClassification {
  import opened Wrappers
  import opened Text
  import opened Api

  const AuthErrorText := "API configuration error. Please set up your GEMINI_API_KEY."
  const QuotaText := "Service temporarily unavailable due to high demand. Please try again in a few minutes."
  const NetworkText := "Network connection issue. Please check your internet and try again."
  const AccessDeniedText := "API access denied. Please check your API key permissions."
  const BadRequestText := "Invalid request. Please try rephrasing your question."
  const GenericText := "Unable to process your request right now. Please try again later."

  /** The exception the handler raises itself when the provider returns no text. */
  const EmptyResponseText := "Empty response from AI model"
  const EmptyResponse := Thrown(Some(EmptyResponseText), None, None)

  /** The categories the `catch` block distinguishes, in the order it tests them. */
  datatype ErrorKind = Configuration | QuotaExceeded | NetworkFailure | AccessDenied | ProviderBadRequest | Unknown

  /** `error.message?.includes(word)` */
  predicate Mentions(e: Thrown, word: string) {
    e.message.Some? && Contains(e.message.value, word)
  }

  /** First match wins: credential words, then quota, then network, then the
      403 and 400 statuses, otherwise unknown. */
  function Classify(e: Thrown): (k: ErrorKind)
    ensures k == Configuration <==> Mentions(e, "API_KEY") || Mentions(e, "authentication")
    ensures e.status == Some(429) ==> k == Configuration || k == QuotaExceeded
    ensures k == Unknown ==>
      e.status != Some(429) && e.status != Some(403) && e.status != Some(400) && e.code != Some("NETWORK_ERROR")
  {
    if Mentions(e, "API_KEY") || Mentions(e, "authentication") then Configuration
    else if Mentions(e, "quota") || Mentions(e, "limit") || e.status == Some(429) then QuotaExceeded
    else if Mentions(e, "network") || Mentions(e, "fetch") || e.code == Some("NETWORK_ERROR") then NetworkFailure
    else if e.status == Some(403) then AccessDenied
    else if e.status == Some(400) then ProviderBadRequest
    else Unknown
  }

  /** One row of the classification table, as data: the message keywords,
      the status and the code that select its kind. */
  datatype Rule = Rule(keywords: seq<string>, status: Option<int>, code: Option<string>, kind: ErrorKind)

  predicate RuleMatches(rule: Rule, e: Thrown) {
    (exists w | w in rule.keywords :: Mentions(e, w)) ||
    (rule.status.Some? && e.status == rule.status) ||
    (rule.code.Some? && e.code == rule.code)
  }

  const Rules: seq<Rule> := [
    Rule(["API_KEY", "authentication"], None, None, Configuration),
    Rule(["quota", "limit"], Some(429), None, QuotaExceeded),
    Rule(["network", "fetch"], None, Some("NETWORK_ERROR"), NetworkFailure),
    Rule([], Some(403), None, AccessDenied),
    Rule([], Some(400), None, ProviderBadRequest)
  ]

  /** The kind of the first matching rule, `Unknown` when none matches. */
  function FirstMatch(rules: seq<Rule>, e: Thrown): ErrorKind {
    if rules == [] then Unknown
    else if RuleMatches(rules[0], e) then rules[0].kind
    else FirstMatch(rules[1..], e)
  }

  /** A rule with two keywords matches when either keyword is mentioned or
      its status or code agrees. */
  lemma KeywordRuleMatches(w1: string, w2: string, status: Option<int>, code: Option<string>, kind: ErrorKind, e: Thrown)
    ensures RuleMatches(Rule([w1, w2], status, code, kind), e) <==>
      Mentions(e, w1) || Mentions(e, w2) || (status.Some? && e.status == status) || (code.Some? && e.code == code)
  {
    assert w1 in [w1, w2] && w2 in [w1, w2];
  }

  /** A rule without keywords or code matches on its status alone. */
  lemma StatusRuleMatches(status: int, kind: ErrorKind, e: Thrown)
    ensures RuleMatches(Rule([], Some(status), None, kind), e) <==> e.status == Some(status)
  {
  }

  /** The handler's chain of tests is the ordered first-match reading of the table. */
  lemma ClassifyFollowsRules(e: Thrown)
    ensures Classify(e) == FirstMatch(Rules, e)
  {
    var r0 := Rule(["API_KEY", "authentication"], None, None, Configuration);
    var r1 := Rule(["quota", "limit"], Some(429), None, QuotaExceeded);
    var r2 := Rule(["network", "fetch"], None, Some("NETWORK_ERROR"), NetworkFailure);
    var r3 := Rule([], Some(403), None, AccessDenied);
    var r4 := Rule([], Some(400), None, ProviderBadRequest);
    KeywordRuleMatches("API_KEY", "authentication", None, None, Configuration, e);
    KeywordRuleMatches("quota", "limit", Some(429), None, QuotaExceeded, e);
    KeywordRuleMatches("network", "fetch", None, Some("NETWORK_ERROR"), NetworkFailure, e);
    StatusRuleMatches(403, AccessDenied, e);
    StatusRuleMatches(400, ProviderBadRequest, e);
    assert Rules == [r0, r1, r2, r3, r4];
    assert Rules[1..] == [r1, r2, r3, r4];
    assert [r1, r2, r3, r4][1..] == [r2, r3, r4];
    assert [r2, r3, r4][1..] == [r3, r4];
    assert [r3, r4][1..] == [r4];
    assert [r4][1..] == [];
    assert FirstMatch([r4], e) == if RuleMatches(r4, e) then ProviderBadRequest else Unknown;
    assert FirstMatch([r3, r4], e) == if RuleMatches(r3, e) then AccessDenied else FirstMatch([r4], e);
    assert FirstMatch([r2, r3, r4], e) == if RuleMatches(r2, e) then NetworkFailure else FirstMatch([r3, r4], e);
    assert FirstMatch([r1, r2, r3, r4], e) == if RuleMatches(r1, e) then QuotaExceeded else FirstMatch([r2, r3, r4], e);
    assert FirstMatch(Rules, e) == if RuleMatches(r0, e) then Configuration else FirstMatch([r1, r2, r3, r4], e);
  }

  /** The reply for each kind; every one is an error body with a non-2xx
      status, and the status alone tells the kinds apart except that a
      credential problem and an unknown failure both answer 500. */
  function ErrorReply(k: ErrorKind): (r: Reply)
    ensures r.body.ErrorBody?
    ensures 400 <= r.status < 600
    ensures r.status == StatusTooManyRequests <==> k == QuotaExceeded
    ensures r.status == StatusServiceUnavailable <==> k == NetworkFailure
    ensures r.status == StatusForbidden <==> k == AccessDenied
    ensures r.status == StatusBadRequest <==> k == ProviderBadRequest
    ensures r.status == StatusInternalError <==> k == Configuration || k == Unknown
  {
    match k
    case Configuration => Reply(StatusInternalError, ErrorBody(AuthErrorText))
    case QuotaExceeded => Reply(StatusTooManyRequests, ErrorBody(QuotaText))
    case NetworkFailure => Reply(StatusServiceUnavailable, ErrorBody(NetworkText))
    case AccessDenied => Reply(StatusForbidden, ErrorBody(AccessDeniedText))
    case ProviderBadRequest => Reply(StatusBadRequest, ErrorBody(BadRequestText))
    case Unknown => Reply(StatusInternalError, ErrorBody(GenericText))
  }

  /** Credential words in the message decide the reply even when the status
      says 429 or 403: the first rule wins. */
  lemma CredentialWordsWin(e: Thrown)
    requires Mentions(e, "API_KEY")
    ensures ErrorReply(Classify(e)) == Reply(500, ErrorBody(AuthErrorText))
  {
  }

  /** An exception that mentions no keyword and has neither status nor code is unknown. */
  lemma UnmatchedIsUnknown(e: Thrown)
    requires e.status.None? && e.code.None?
    requires !Mentions(e, "API_KEY") && !Mentions(e, "authentication")
    requires !Mentions(e, "quota") && !Mentions(e, "limit")
    requires !Mentions(e, "network") && !Mentions(e, "fetch")
    ensures Classify(e) == Unknown
  {
  }

  /** A message lacking some character of `word` does not mention it. */
  lemma NotMentioned(e: Thrown, word: string, c: char)
    requires e.message.Some? && c in word && c !in e.message.value
    ensures !Mentions(e, word)
  {
    var k :| 0 <= k < |word| && word[k] == c;
    ContainedCharsOccur(e.message.value, word, k);
  }

  /** Characters the handler's own "empty response" message lacks. */
  lemma EmptyResponseLacks(c: char)
    requires c in "_aqiwc"
    ensures c !in EmptyResponseText
  {
  }

  /** The handler's own "empty response" message contains none of the keywords:
      each keyword has a character the message lacks. */
  lemma EmptyResponseMentionsNothing()
    ensures !Mentions(EmptyResponse, "API_KEY") && !Mentions(EmptyResponse, "authentication")
    ensures !Mentions(EmptyResponse, "quota") && !Mentions(EmptyResponse, "limit")
    ensures !Mentions(EmptyResponse, "network") && !Mentions(EmptyResponse, "fetch")
  {
    EmptyResponseLacks('_');
    NotMentioned(EmptyResponse, "API_KEY", '_');
    EmptyResponseLacks('a');
    NotMentioned(EmptyResponse, "authentication", 'a');
    EmptyResponseLacks('q');
    NotMentioned(EmptyResponse, "quota", 'q');
    EmptyResponseLacks('i');
    NotMentioned(EmptyResponse, "limit", 'i');
    EmptyResponseLacks('w');
    NotMentioned(EmptyResponse, "network", 'w');
    EmptyResponseLacks('c');
    NotMentioned(EmptyResponse, "fetch", 'c');
  }

  /** So the "empty response" exception ends in the generic 500. */
  lemma EmptyResponseIsUnknown()
    ensures Classify(EmptyResponse) == Unknown
  {
    EmptyResponseMentionsNothing();
    UnmatchedIsUnknown(EmptyResponse);
  }
}
