/** The contact page of the third copy: a five-field form kept as one record,
    updated field by field as the user types, and cleared on submission
    together with a thank-you flag that a timer switches off again. */
module ContactPage {

  datatype FieldName = Name | Email | Phone | Subject | Message

  datatype ContactForm = ContactForm(name: string, email: string, phone: string, subject: string, message: string)

  datatype PageState = PageState(form: ContactForm, submitted: bool)

  const EmptyForm := ContactForm("", "", "", "", "")

  /** `useState` for `formData` and `isSubmitted`. */
  const InitialState := PageState(EmptyForm, false)

  /** The value of one field. */
  function Get(f: ContactForm, n: FieldName): string {
    match n
    case Name => f.name
    case Email => f.email
    case Phone => f.phone
    case Subject => f.subject
    case Message => f.message
  }

  /** `{ ...prev, [name]: value }` */
  function Set(f: ContactForm, n: FieldName, value: string): (r: ContactForm)
    ensures Get(r, n) == value
    ensures forall m :: m != n ==> Get(r, m) == Get(f, m)
  {
    match n
    case Name => f.(name := value)
    case Email => f.(email := value)
    case Phone => f.(phone := value)
    case Subject => f.(subject := value)
    case Message => f.(message := value)
  }

  /** Two forms agreeing on every field are the same form. */
  lemma FormExtensional(f: ContactForm, g: ContactForm)
    requires forall n :: Get(f, n) == Get(g, n)
    ensures f == g
  {
    assert Get(f, Name) == Get(g, Name) && Get(f, Email) == Get(g, Email);
    assert Get(f, Phone) == Get(g, Phone) && Get(f, Subject) == Get(g, Subject);
    assert Get(f, Message) == Get(g, Message);
  }

  /** `handleInputChange`: the edited field takes the typed value; the other
      fields and the thank-you flag stay. */
  function InputChange(s: PageState, n: FieldName, value: string): (r: PageState)
    ensures Get(r.form, n) == value
    ensures forall m :: m != n ==> Get(r.form, m) == Get(s.form, m)
    ensures r.submitted == s.submitted
  {
    s.(form := Set(s.form, n, value))
  }

  /** Typing into a field twice keeps only the last value. */
  lemma LastInputWins(s: PageState, n: FieldName, v1: string, v2: string)
    ensures InputChange(InputChange(s, n, v1), n, v2) == InputChange(s, n, v2)
  {
    FormExtensional(InputChange(InputChange(s, n, v1), n, v2).form, InputChange(s, n, v2).form);
  }

  /** Edits of different fields do not interfere. */
  lemma InputsCommute(s: PageState, n: FieldName, m: FieldName, v: string, w: string)
    requires n != m
    ensures InputChange(InputChange(s, n, v), m, w) == InputChange(InputChange(s, m, w), n, v)
  {
    FormExtensional(InputChange(InputChange(s, n, v), m, w).form, InputChange(InputChange(s, m, w), n, v).form);
  }

  /** Typing the value a field already holds changes nothing. */
  lemma InputOfSameValue(s: PageState, n: FieldName)
    ensures InputChange(s, n, Get(s.form, n)) == s
  {
    FormExtensional(InputChange(s, n, Get(s.form, n)).form, s.form);
  }

  /** `handleSubmit`: the thank-you flag is raised and every field cleared,
      whatever the fields hold; the handler itself checks nothing. */
  function Submit(s: PageState): (r: PageState)
    ensures r.submitted
    ensures forall n :: Get(r.form, n) == []
  {
    PageState(EmptyForm, true)
  }

  /** The timer callback `() => setIsSubmitted(false)`. */
  function TimerExpired(s: PageState): (r: PageState)
    ensures !r.submitted && r.form == s.form
  {
    s.(submitted := false)
  }

  /** A submission followed by the timer, with no typing in between, returns
      the page to its initial state, from any state. */
  lemma SubmitThenTimerRestoresInitial(s: PageState)
    ensures TimerExpired(Submit(s)) == InitialState
  {
    FormExtensional(Submit(s).form, EmptyForm);
  }

  /** The handler itself checks nothing: a blank form that reaches it is
      accepted, the flag is raised and the fields stay empty. (The browser's
      `required` check, which refuses such a form first, is not modelled.) */
  lemma SubmitAcceptsBlankForm()
    ensures Submit(InitialState).submitted
    ensures Submit(InitialState).form == InitialState.form
  {
    FormExtensional(Submit(InitialState).form, EmptyForm);
  }
}
