/** The support page's contact logic: the phone and WhatsApp links built from
    a number, the required-field check of the contact form, and the two
    accessibility switches. */
module ContactSupport {
  import opened Wrappers
  import opened Text

  // ---------------------------------------------------------------------
  // Links

  /** The characters `/[^\d+]/g` leaves in place: ASCII digits and `+`. */
  predicate IsDialChar(c: char) {
    '0' <= c <= '9' || c == '+'
  }

  /** `s.replace(/[^\d+]/g, "")`: every other character removed, order kept. */
  function KeepDialChars(s: string): (r: string)
    ensures |r| <= |s|
    ensures forall i :: 0 <= i < |r| ==> IsDialChar(r[i])
    ensures |r| == |s| ==> r == s
  {
    if s == [] then []
    else (if IsDialChar(s[0]) then [s[0]] else []) + KeepDialChars(s[1..])
  }

  /** A character survives the filter exactly when it occurs in the input and
      is a digit or `+`; so the result holds only digits and `+`. */
  lemma {:induction false} KeepDialCharsMembers(s: string)
    ensures forall c :: c in KeepDialChars(s) <==> c in s && IsDialChar(c)
    ensures forall i :: 0 <= i < |KeepDialChars(s)| ==> IsDialChar(KeepDialChars(s)[i])
  {
    if s != [] {
      KeepDialCharsMembers(s[1..]);
      assert s == [s[0]] + s[1..];
    }
  }

  /** One step of the filter. */
  lemma KeepDialCharsCons(c: char, t: string)
    ensures KeepDialChars([c] + t) == (if IsDialChar(c) then [c] else []) + KeepDialChars(t)
  {
    assert ([c] + t)[1..] == t;
  }

  /** The filter distributes over concatenation. */
  lemma {:induction false} KeepDialCharsAppend(a: string, b: string)
    ensures KeepDialChars(a + b) == KeepDialChars(a) + KeepDialChars(b)
  {
    if a == [] {
      assert a + b == b;
    } else {
      var ab := a + b;
      assert ab[0] == a[0] && ab[1..] == a[1..] + b;
      KeepDialCharsAppend(a[1..], b);
      var h := if IsDialChar(a[0]) then [a[0]] else [];
      assert KeepDialChars(ab) == h + KeepDialChars(a[1..] + b);
      assert KeepDialChars(a) == h + KeepDialChars(a[1..]);
      assert h + (KeepDialChars(a[1..]) + KeepDialChars(b)) == (h + KeepDialChars(a[1..])) + KeepDialChars(b);
    }
  }

  /** A string of dial characters is left as it is. */
  lemma {:induction false} KeepDialCharsFixpoint(s: string)
    requires forall i :: 0 <= i < |s| ==> IsDialChar(s[i])
    ensures KeepDialChars(s) == s
  {
    if s != [] {
      KeepDialCharsFixpoint(s[1..]);
      assert [s[0]] + s[1..] == s;
    }
  }

  /** Filtering twice is filtering once. */
  lemma KeepDialCharsIdempotent(s: string)
    ensures KeepDialChars(KeepDialChars(s)) == KeepDialChars(s)
  {
    KeepDialCharsMembers(s);
    KeepDialCharsFixpoint(KeepDialChars(s));
  }

  const TelScheme := "tel:"
  const SmsScheme := "sms:"
  const WhatsAppBase := "https://wa.me/"

  /** `telLink`: the scheme, then only digits and `+`, every digit and `+`
      of the number included. */
  function TelLink(phone: string): (r: string)
    ensures TelScheme <= r
    ensures forall i :: |TelScheme| <= i < |r| ==> IsDialChar(r[i])
    ensures forall c :: c in phone && IsDialChar(c) ==> c in r[|TelScheme|..]
  {
    KeepDialCharsMembers(phone);
    assert (TelScheme + KeepDialChars(phone))[|TelScheme|..] == KeepDialChars(phone);
    TelScheme + KeepDialChars(phone)
  }

  /** `smsLink`: as `telLink`, under the `sms:` scheme. */
  function SmsLink(phone: string): (r: string)
    ensures SmsScheme <= r
    ensures forall i :: |SmsScheme| <= i < |r| ==> IsDialChar(r[i])
    ensures forall c :: c in phone && IsDialChar(c) ==> c in r[|SmsScheme|..]
  {
    KeepDialCharsMembers(phone);
    assert (SmsScheme + KeepDialChars(phone))[|SmsScheme|..] == KeepDialChars(phone);
    SmsScheme + KeepDialChars(phone)
  }

  /** `digits.startsWith("+") ? digits.slice(1) : digits` */
  function DropLeadingPlus(digits: string): (r: string)
    ensures |digits| > 0 && digits[0] == '+' ==> digits == "+" + r
    ensures !(|digits| > 0 && digits[0] == '+') ==> r == digits
  {
    if |digits| > 0 && digits[0] == '+' then digits[1..] else digits
  }

  /** `waLink`: the base URL, then only digits and `+`, every digit of the
      number included. */
  function WaLink(number: string): (r: string)
    ensures WhatsAppBase <= r
    ensures forall i :: |WhatsAppBase| <= i < |r| ==> IsDialChar(r[i])
    ensures forall c :: c in number && '0' <= c <= '9' ==> c in r[|WhatsAppBase|..]
  {
    var d := KeepDialChars(number);
    var rest := DropLeadingPlus(d);
    KeepDialCharsMembers(number);
    assert forall c :: c in d && c != '+' ==> c in rest by {
      if |d| > 0 && d[0] == '+' {
        assert d == [d[0]] + rest;
      }
    }
    assert forall i :: 0 <= i < |rest| ==> rest[i] in d;
    assert (WhatsAppBase + rest)[|WhatsAppBase|..] == rest;
    WhatsAppBase + rest
  }

  /** The call and text links of one number differ only in their scheme, and
      what follows the scheme is the number with everything but digits and
      `+` removed. */
  lemma LinksShareNumber(phone: string)
    ensures TelLink(phone)[|TelScheme|..] == SmsLink(phone)[|SmsScheme|..] == KeepDialChars(phone)
    ensures forall i :: |TelScheme| <= i < |TelLink(phone)| ==> IsDialChar(TelLink(phone)[i])
  {
    KeepDialCharsMembers(phone);
  }

  /** The WhatsApp link carries the filtered number with exactly one leading
      `+` removed: putting it back gives the filtered number, and any further
      `+` stays. */
  lemma WaLinkDropsOnePlus(number: string)
    ensures var d := KeepDialChars(number);
            var rest := WaLink(number)[|WhatsAppBase|..];
            (|d| > 0 && d[0] == '+' ==> "+" + rest == d) &&
            (!(|d| > 0 && d[0] == '+') ==> rest == d)
  {
  }

  /** The shipped default number. */
  const DefaultNumber := "+1 800 555 0199"

  /** A space between two parts of a number disappears. */
  lemma KeepDialCharsSpaced(a: string, b: string)
    ensures KeepDialChars(a + " " + b) == KeepDialChars(a) + KeepDialChars(b)
  {
    KeepDialCharsAppend(a + " ", b);
    KeepDialCharsAppend(a, " ");
  }

  /** The groups of the default number are dial characters only. */
  lemma DefaultGroupsKept()
    ensures KeepDialChars("+1") == "+1" && KeepDialChars("800") == "800"
    ensures KeepDialChars("555") == "555" && KeepDialChars("0199") == "0199"
  {
    KeepDialCharsCons('+', "1");
    KeepDialCharsCons('1', []);
    KeepDialCharsCons('8', "00");
    KeepDialCharsCons('0', "0");
    KeepDialCharsCons('0', []);
    KeepDialCharsCons('5', "55");
    KeepDialCharsCons('5', "5");
    KeepDialCharsCons('5', []);
    KeepDialCharsCons('0', "199");
    KeepDialCharsCons('1', "99");
    KeepDialCharsCons('9', "9");
    KeepDialCharsCons('9', []);
  }

  /** Four groups separated by single spaces filter to the four groups filtered. */
  lemma KeepDialCharsFourGroups(a: string, b: string, c: string, d: string)
    ensures KeepDialChars(a + " " + b + " " + c + " " + d)
         == KeepDialChars(a) + KeepDialChars(b) + KeepDialChars(c) + KeepDialChars(d)
  {
    KeepDialCharsSpaced(a + " " + b + " " + c, d);
    KeepDialCharsSpaced(a + " " + b, c);
    KeepDialCharsSpaced(a, b);
  }

  /** The default number splits at its spaces into the four groups. */
  lemma DefaultSplitsAtSpaces()
    ensures KeepDialChars(DefaultNumber) == KeepDialChars("+1") + KeepDialChars("800") + KeepDialChars("555") + KeepDialChars("0199")
  {
    assert DefaultNumber == "+1" + " " + "800" + " " + "555" + " " + "0199";
    KeepDialCharsFourGroups("+1", "800", "555", "0199");
  }

  lemma DefaultDialChars()
    ensures KeepDialChars(DefaultNumber) == "+18005550199"
  {
    DefaultSplitsAtSpaces();
    DefaultGroupsKept();
    DefaultGroupsJoined();
  }

  lemma DefaultGroupsJoined()
    ensures "+1" + "800" + "555" + "0199" == "+18005550199"
  {
  }

  /** The default number gives `tel:+18005550199` and `https://wa.me/18005550199`. */
  lemma DefaultLinks()
    ensures TelLink(DefaultNumber) == "tel:" + "+18005550199"
    ensures WaLink(DefaultNumber) == "https://wa.me/" + "18005550199"
  {
    DefaultDialChars();
  }

  // ---------------------------------------------------------------------
  // The contact form

  /** The form's named values as `FormData.get` returns them: absent fields are `null`. */
  datatype FormFields = FormFields(name: Option<string>, contact: Option<string>, message: Option<string>)

  /** `String(formData.get(field) || "").trim()` */
  function FieldValue(v: Option<string>): (r: string)
    ensures r == [] <==> v.None? || AllSpace(v.value)
  {
    Trim(v.GetOr([]))
  }

  /** All three required values are non-blank. */
  predicate Complete(f: FormFields) {
    FieldValue(f.name) != [] && FieldValue(f.contact) != [] && FieldValue(f.message) != []
  }

  /** The toasts the handler can show. */
  datatype Notice = Incomplete | Sent | SendFailed

  /** What a submission did: the toasts shown in order, whether the simulated
      request was made, and whether the form was cleared. */
  datatype SubmitResult = SubmitResult(notices: seq<Notice>, requested: bool, reset: bool)

  /** `onSubmit` as written. After the simulated request it calls `reset` on
      `e.currentTarget`; `targetKept` says whether the event still exposes the
      form at that point. If it does not, the call throws inside the `try`
      after the success toast, and the `catch` shows the failure toast. */
  function SubmitAsWritten(f: FormFields, targetKept: bool): (r: SubmitResult)
    ensures !Complete(f) ==> r == SubmitResult([Incomplete], false, false)
    ensures Complete(f) ==> r.requested && |r.notices| >= 1 && r.notices[0] == Sent
    ensures Complete(f) ==> (r.reset <==> targetKept)
  {
    if !Complete(f) then SubmitResult([Incomplete], false, false)
    else if targetKept then SubmitResult([Sent], true, true)
    else SubmitResult([Sent, SendFailed], true, false)
  }

  /** Once the event has been dispatched, React sets `currentTarget` to null,
      and the handler resumes only after its `await`: a complete form is
      reported both sent and failed, and is not cleared. */
  lemma SubmitAsWrittenAfterDispatch(f: FormFields)
    requires Complete(f)
    ensures SubmitAsWritten(f, false) == SubmitResult([Sent, SendFailed], true, false)
  {
  }

  /** `onSubmit` with the form taken from the event before the `await`: an
      incomplete form is refused without a request or a reset; a complete one
      is requested, reported sent, and cleared. */
  function Submit(f: FormFields): (r: SubmitResult)
    ensures r.requested <==> Complete(f)
    ensures r.reset <==> Complete(f)
    ensures r.notices == if Complete(f) then [Sent] else [Incomplete]
  {
    if !Complete(f) then SubmitResult([Incomplete], false, false)
    else SubmitResult([Sent], true, true)
  }

  /** The corrected handler does what the handler as written does when the
      form is still reachable after the wait. */
  lemma SubmitMatchesKeptTarget(f: FormFields)
    ensures Submit(f) == SubmitAsWritten(f, true)
  {
  }

  /** A name made only of white space counts as missing. */
  lemma BlankNameRefused(name: string, contact: Option<string>, message: Option<string>)
    requires AllSpace(name)
    ensures Submit(FormFields(Some(name), contact, message)) == SubmitResult([Incomplete], false, false)
  {
  }

  // ---------------------------------------------------------------------
  // Accessibility switches

  datatype Accessibility = Accessibility(largeText: bool, highContrast: bool)

  const InitialAccessibility := Accessibility(false, false)

  /** `setLargeText((v) => !v)` */
  function ToggleLargeText(a: Accessibility): (r: Accessibility)
    ensures r.largeText != a.largeText && r.highContrast == a.highContrast
  {
    a.(largeText := !a.largeText)
  }

  /** `setHighContrast((v) => !v)` */
  function ToggleHighContrast(a: Accessibility): (r: Accessibility)
    ensures r.highContrast != a.highContrast && r.largeText == a.largeText
  {
    a.(highContrast := !a.highContrast)
  }

  /** Two presses of the same switch restore the settings, and the switches
      commute. */
  lemma TogglesInvolutive(a: Accessibility)
    ensures ToggleLargeText(ToggleLargeText(a)) == a
    ensures ToggleHighContrast(ToggleHighContrast(a)) == a
    ensures ToggleLargeText(ToggleHighContrast(a)) == ToggleHighContrast(ToggleLargeText(a))
  {
  }
}
