/** The blog section: which articles the category tabs and the search box
    select, the newsletter form's email check and what a subscription does
    to the form, and the share link of an article card. */
module BlogSection {
  import opened Wrappers
  import opened Text
  import opened Sequences

  datatype Category = HealthTips | Updates | News

  /** The selected tab: every category, or one of them. */
  datatype Selection = All | Only(category: Category)

  /** An article; its id, date and image only key and decorate the card. */
  datatype Article = Article(title: string, excerpt: string, category: Category)

  // ---------------------------------------------------------------------
  // Filtering

  /** `query.trim().toLowerCase()` */
  function NormalizedQuery(query: string): string {
    ToLower(Trim(query))
  }

  predicate MatchesCategory(sel: Selection, a: Article) {
    sel.All? || a.category == sel.category
  }

  /** An empty query matches everything; otherwise the lower-cased title or
      excerpt must contain it. */
  predicate MatchesQuery(q: string, a: Article) {
    q == [] || Contains(ToLower(a.title), q) || Contains(ToLower(a.excerpt), q)
  }

  /** The article is meant to be listed for this tab and search text. */
  predicate Selected(sel: Selection, query: string, a: Article) {
    MatchesCategory(sel, a) && MatchesQuery(NormalizedQuery(query), a)
  }

  /** `articles.filter(keep)`: the articles `keep` accepts, in order. */
  function FilterWith(articles: seq<Article>, keep: Article -> bool): (r: seq<Article>)
    ensures |r| <= |articles|
    ensures forall k :: 0 <= k < |r| ==> keep(r[k])
  {
    if articles == [] then []
    else (if keep(articles[0]) then [articles[0]] else []) + FilterWith(articles[1..], keep)
  }

  /** An article is kept if and only if it is in the list and accepted. */
  lemma {:induction false} FilterWithMembers(articles: seq<Article>, keep: Article -> bool)
    ensures forall a :: a in FilterWith(articles, keep) <==> a in articles && keep(a)
  {
    if articles != [] {
      FilterWithMembers(articles[1..], keep);
      assert articles == [articles[0]] + articles[1..];
    }
  }

  /** The kept articles keep the order of the list. */
  lemma {:induction false} FilterWithKeepsOrder(articles: seq<Article>, keep: Article -> bool)
    ensures IsSubsequence(FilterWith(articles, keep), articles)
  {
    if articles != [] {
      FilterWithKeepsOrder(articles[1..], keep);
      var rest := FilterWith(articles[1..], keep);
      if keep(articles[0]) {
        assert ([articles[0]] + rest)[1..] == rest;
      } else {
        assert FilterWith(articles, keep) == rest;
        SubsequenceOfTail(rest, articles);
      }
    }
  }

  /** A callback that accepts every article keeps the whole list. */
  lemma {:induction false} FilterWithAll(articles: seq<Article>, keep: Article -> bool)
    requires forall a :: keep(a)
    ensures FilterWith(articles, keep) == articles
  {
    if articles != [] {
      FilterWithAll(articles[1..], keep);
      assert articles == [articles[0]] + articles[1..];
    }
  }

  /** A callback that accepts nothing keeps nothing. */
  lemma {:induction false} FilterWithNone(articles: seq<Article>, keep: Article -> bool)
    requires forall a :: !keep(a)
    ensures FilterWith(articles, keep) == []
  {
    if articles != [] {
      FilterWithNone(articles[1..], keep);
    }
  }

  /** The `filter` callback as written: it computes both tests and returns
      nothing, and `undefined` is falsy. */
  function KeepAsWritten(sel: Selection, q: string, a: Article): bool {
    var matchesCategory := MatchesCategory(sel, a);
    var matchesQuery := MatchesQuery(q, a);
    false
  }

  /** `filtered` as written: nothing is ever listed, whatever the list, the
      tab and the search. */
  function FilteredAsWritten(articles: seq<Article>, sel: Selection, query: string): (r: seq<Article>)
    ensures r == []
  {
    FilterWithNone(articles, a => KeepAsWritten(sel, NormalizedQuery(query), a));
    FilterWith(articles, a => KeepAsWritten(sel, NormalizedQuery(query), a))
  }

  /** For instance, the "All" tab with an empty search drops an article that
      both tests accept. */
  lemma FilteredAsWrittenDropsSelected(a: Article)
    ensures Selected(All, "", a)
    ensures a !in FilteredAsWritten([a], All, "")
  {
  }

  /** `filtered` with the callback returning `matchesCategory && matchesQuery`:
      never longer than the list, and every listed article is selected. */
  function Filtered(articles: seq<Article>, sel: Selection, query: string): (r: seq<Article>)
    ensures |r| <= |articles|
    ensures forall k :: 0 <= k < |r| ==> Selected(sel, query, r[k])
  {
    FilterWith(articles, a => Selected(sel, query, a))
  }

  /** Exactly the selected articles are listed, in their original order. */
  lemma FilteredSelects(articles: seq<Article>, sel: Selection, query: string)
    ensures forall a :: a in Filtered(articles, sel, query) <==> a in articles && Selected(sel, query, a)
    ensures IsSubsequence(Filtered(articles, sel, query), articles)
  {
    FilterWithMembers(articles, a => Selected(sel, query, a));
    FilterWithKeepsOrder(articles, a => Selected(sel, query, a));
  }

  /** The "All" tab with a blank search lists every article. */
  lemma FilteredAllBlank(articles: seq<Article>, query: string)
    requires AllSpace(query)
    ensures Filtered(articles, All, query) == articles
  {
    FilterWithAll(articles, a => Selected(All, query, a));
  }

  /** The search ignores surrounding white space and the case of ASCII letters. */
  lemma QueryNormalized(query: string)
    ensures NormalizedQuery(query) == NormalizedQuery(Trim(query))
    ensures forall i :: 0 <= i < |NormalizedQuery(query)| ==> !('A' <= NormalizedQuery(query)[i] <= 'Z')
  {
    TrimIdempotent(query);
    LowerHasNoUpper(Trim(query));
  }

  /** `filtered.length === 0`: the "No articles found" panel is shown
      exactly when nothing is listed. */
  predicate ShowsEmptyPanel(listed: seq<Article>) {
    |listed| == 0
  }

  /** As written, the panel shows for every list, tab and search. */
  lemma EmptyPanelAlwaysShownAsWritten(articles: seq<Article>, sel: Selection, query: string)
    ensures ShowsEmptyPanel(FilteredAsWritten(articles, sel, query))
  {
  }

  /** With the corrected filter, the panel shows exactly when no article in
      the list is selected. */
  lemma EmptyPanelWhenNothingSelected(articles: seq<Article>, sel: Selection, query: string)
    ensures ShowsEmptyPanel(Filtered(articles, sel, query)) <==> forall a :: a in articles ==> !Selected(sel, query, a)
  {
    FilteredSelects(articles, sel, query);
    var r := Filtered(articles, sel, query);
    if r != [] {
      assert r[0] in r;
    }
  }

  // ---------------------------------------------------------------------
  // Newsletter

  /** A character `[^\s@]` accepts. */
  predicate IsEmailChar(c: char) {
    !IsSpace(c) && c != '@'
  }

  predicate AllEmailChars(s: string) {
    forall k :: 0 <= k < |s| ==> IsEmailChar(s[k])
  }

  /** `/^[^\s@]+@[^\s@]+\.[^\s@]+$/.test(s)`: a non-empty local part, `@`, a
      non-empty part, a dot, and a non-empty last part, none of the three
      parts holding white space or `@`. */
  predicate MatchesEmailPattern(s: string): (b: bool)
    ensures b ==> |s| >= 5 && '@' in s && '.' in s && s[0] != '@'
  {
    exists i, j | 0 < i < j < |s| ::
      s[i] == '@' && s[j] == '.' && i + 1 < j && j + 1 < |s| &&
      AllEmailChars(s[..i]) && AllEmailChars(s[i + 1..j]) && AllEmailChars(s[j + 1..])
  }

  /** The same language described without the pattern: no white space, `@`
      at exactly one position, which is not the first, and after it a domain
      with a dot that is neither its first nor its last character. */
  predicate EmailShape(s: string) {
    (forall k :: 0 <= k < |s| ==> !IsSpace(s[k])) &&
    exists i | 0 < i < |s| ::
      s[i] == '@' && (forall k :: 0 <= k < |s| && k != i ==> s[k] != '@') &&
      exists j | i + 1 < j < |s| - 1 :: s[j] == '.'
  }

  lemma PatternGivesShape(s: string)
    requires MatchesEmailPattern(s)
    ensures EmailShape(s)
  {
    var i, j :| 0 < i < j < |s| &&
      s[i] == '@' && s[j] == '.' && i + 1 < j && j + 1 < |s| &&
      AllEmailChars(s[..i]) && AllEmailChars(s[i + 1..j]) && AllEmailChars(s[j + 1..]);
    forall k | 0 <= k < |s|
      ensures !IsSpace(s[k]) && (k != i ==> s[k] != '@')
    {
      if k < i {
        assert s[k] == s[..i][k];
      } else if i < k < j {
        assert s[k] == s[i + 1..j][k - i - 1];
      } else if j < k {
        assert s[k] == s[j + 1..][k - j - 1];
      }
    }
  }

  lemma ShapeGivesPattern(s: string)
    requires EmailShape(s)
    ensures MatchesEmailPattern(s)
  {
    var i :| 0 < i < |s| && s[i] == '@' && (forall k :: 0 <= k < |s| && k != i ==> s[k] != '@') &&
      exists j | i + 1 < j < |s| - 1 :: s[j] == '.';
    var j :| i + 1 < j < |s| - 1 && s[j] == '.';
    assert forall k :: 0 <= k < |s| && k != i ==> IsEmailChar(s[k]);
    EmailCharsSlice(s, 0, i, i);
    EmailCharsSlice(s, i + 1, j, i);
    EmailCharsSlice(s, j + 1, |s|, i);
  }

  lemma EmailCharsSlice(s: string, lo: nat, hi: nat, at: int)
    requires lo <= hi <= |s| && !(lo <= at < hi)
    requires forall k :: 0 <= k < |s| && k != at ==> IsEmailChar(s[k])
    ensures AllEmailChars(s[lo..hi])
  {
    forall k | 0 <= k < hi - lo ensures IsEmailChar(s[lo..hi][k]) {
      assert s[lo..hi][k] == s[lo + k];
    }
  }

  /** The pattern accepts exactly the strings of `EmailShape`. */
  lemma EmailPatternCharacterized(s: string)
    ensures MatchesEmailPattern(s) <==> EmailShape(s)
  {
    if MatchesEmailPattern(s) {
      PatternGivesShape(s);
    }
    if EmailShape(s) {
      ShapeGivesPattern(s);
    }
  }

  const MaxEmailLength := 254

  /** The check in `handleSubscribe`, on the trimmed input; the bound counts
      UTF-16 code units, as `length` does. */
  predicate ValidEmail(email: string) {
    var trimmed := Trim(email);
    MatchesEmailPattern(trimmed) && Utf16Length(trimmed) <= MaxEmailLength
  }

  /** An address is accepted exactly when, once trimmed, it has the shape the
      pattern describes and at most 254 code units; it then has at most 254
      characters. */
  lemma ValidEmailCharacterized(email: string)
    ensures ValidEmail(email) <==> EmailShape(Trim(email)) && Utf16Length(Trim(email)) <= MaxEmailLength
    ensures ValidEmail(email) ==> |Trim(email)| <= MaxEmailLength
  {
    EmailPatternCharacterized(Trim(email));
  }

  /** The toasts the newsletter form can show. */
  datatype SubscribeNotice = InvalidEmail | Subscribed | SubscribeFailed

  /** The form after a submission: the email box's content, the addresses
      handed to `onSubscribeEmail`, and the toast. */
  datatype Subscription = Subscription(email: string, calls: seq<string>, notice: SubscribeNotice)

  /** `handleSubscribe`. `callback` is `onSubscribeEmail`, absent or
      resolving (`true`) or rejecting (`false`) for the address it is given. */
  function Subscribe(email: string, callback: Option<string -> bool>): (r: Subscription)
    ensures !ValidEmail(email) ==> r == Subscription(email, [], InvalidEmail)
    ensures ValidEmail(email) && callback.None? ==> r == Subscription([], [], Subscribed)
    ensures ValidEmail(email) && callback.Some? ==> r.calls == [Trim(email)]
    ensures ValidEmail(email) && callback.Some? ==>
      (r.email == [] <==> callback.value(Trim(email))) && (r.email != [] ==> r.email == email)
    ensures r.notice == Subscribed ==> r.email == []
  {
    var trimmed := Trim(email);
    if !ValidEmail(email) then Subscription(email, [], InvalidEmail)
    else match callback
      case None => Subscription([], [], Subscribed)
      case Some(subscribe) =>
        if subscribe(trimmed) then Subscription([], [trimmed], Subscribed)
        else Subscription(email, [trimmed], SubscribeFailed)
  }

  /** The address handed on has no surrounding white space, matches the
      pattern and has at most 254 UTF-16 code units. */
  lemma SubscribedAddressIsClean(email: string, subscribe: string -> bool)
    requires ValidEmail(email)
    ensures var c := Subscribe(email, Some(subscribe)).calls[0];
            MatchesEmailPattern(c) && Utf16Length(c) <= MaxEmailLength && !IsSpace(c[0]) && !IsSpace(c[|c| - 1])
  {
    var c := Trim(email);
    assert Subscribe(email, Some(subscribe)).calls == [c];
    assert MatchesEmailPattern(c) && c != [];
  }

  // ---------------------------------------------------------------------
  // Sharing

  const TweetIntent := "https://twitter.com/intent/tweet?text="
  const EncodedSpace := "%20"

  /** The link the share button opens. `enc` stands for `encodeURIComponent`. */
  function ShareLink(enc: string -> string, title: string, url: Option<string>): (r: string)
    ensures TweetIntent + enc(title) <= r
    ensures enc(url.GetOr([])) == [] ==> r == TweetIntent + enc(title)
    ensures enc(url.GetOr([])) != [] ==> r == TweetIntent + enc(title) + EncodedSpace + enc(url.GetOr([]))
  {
    var shareText := enc(title);
    var shareUrl := enc(url.GetOr([]));
    TweetIntent + shareText + (if shareUrl != [] then EncodedSpace + shareUrl else [])
  }

  /** With an encoder that maps only the empty string to the empty string,
      the link carries a URL part exactly when a non-empty URL is given. */
  lemma ShareLinkHasUrlPart(enc: string -> string, title: string, url: Option<string>)
    requires forall x :: enc(x) == [] <==> x == []
    ensures ShareLink(enc, title, url) != TweetIntent + enc(title) <==> url.Some? && url.value != []
  {
    var u := url.GetOr([]);
    if u != [] {
      assert |ShareLink(enc, title, url)| > |TweetIntent + enc(title)|;
    }
  }

  /** Article cards pass no URL, so the link carries the encoded title alone. */
  lemma CardShareLink(enc: string -> string, a: Article)
    requires enc([]) == []
    ensures ShareLink(enc, a.title, None) == TweetIntent + enc(a.title)
  {
  }
}
