/**
 * The floating contact form: a three-step wizard (name, email, message)
 * whose steps are guarded, whose last step posts the form, and which is
 * reset when it is closed.
 */
module ContactOrb {
  import opened Wrappers
  import opened Text

  /**
   * `\S+@\S+\.\S+` matches with its `@` at index `at` and its `.` at index
   * `dot`: a non-space before the `@`, only non-spaces (at least one)
   * between the two, and a non-space after the `.`.
   */
  predicate EmailMatchAt(s: string, at: int, dot: int)
  {
    && 1 <= at && at + 1 < dot && dot + 1 < |s|
    && s[at] == '@' && s[dot] == '.'
    && !IsSpace(s[at - 1]) && !IsSpace(s[dot + 1])
    && forall k :: at < k < dot ==> !IsSpace(s[k])
  }

  /** `/\S+@\S+\.\S+/.test(s)`: the pattern matches somewhere in `s` (it is not anchored). */
  predicate LooksLikeEmail(s: string)
    ensures LooksLikeEmail(s) ==> |s| >= 5 && '@' in s && '.' in s
  {
    exists at, dot | 0 <= at < |s| && 0 <= dot < |s| :: EmailMatchAt(s, at, dot)
  }

  /** The pattern is unanchored: text around a matching address does not stop the match. */
  lemma EmailUnanchored(s: string, before: string, after: string)
    requires LooksLikeEmail(s)
    ensures LooksLikeEmail(before + s + after)
  {
    var at, dot :| 0 <= at < |s| && 0 <= dot < |s| && EmailMatchAt(s, at, dot);
    var t := before + s + after;
    assert forall k :: 0 <= k < |s| ==> t[|before| + k] == s[k];
    assert EmailMatchAt(t, |before| + at, |before| + dot);
  }

  /** The fields of the form, which is also the body posted to `/api/contact`. */
  datatype ContactForm = ContactForm(name: string, email: string, message: string, honeypot: string)

  const EmptyForm := ContactForm("", "", "", "")

  /** The component's state; `isOpen` is the parent's prop. */
  datatype OrbState = OrbState(
    isOpen: bool,
    step: nat,
    form: ContactForm,
    isSubmitting: bool,
    isSuccess: bool)

  /** First render: closed, step 0, empty fields. */
  const Initial := OrbState(false, 0, EmptyForm, false, false)

  /**
   * `handleNextStep`: step 0 needs a name of at least two characters,
   * step 1 an address matching the pattern; a refused step stays put.
   */
  function NextStep(st: OrbState): (r: OrbState)
    ensures r == st.(step := r.step)
    ensures r.step == st.step || r.step == st.step + 1
    ensures st.step == 0 ==> (r.step == 1 <==> |st.form.name| >= 2)
    ensures st.step == 1 ==> (r.step == 2 <==> LooksLikeEmail(st.form.email))
  {
    if st.step == 0 && |st.form.name| < 2 then st
    else if st.step == 1 && !LooksLikeEmail(st.form.email) then st
    else st.(step := st.step + 1)
  }

  /** How the contact request ended: an ok response, or a non-ok response or a thrown error. */
  datatype SendOutcome = SendOk | SendFailed

  /** A state after an event, and the form posted by it, if any. */
  datatype SubmitResult = SubmitResult(st: OrbState, sent: Option<ContactForm>)

  /**
   * `handleSubmit`: a message under ten characters is refused before any
   * request; otherwise the form is posted, and success shows the thank-you
   * view while failure re-enables the button.
   */
  function Submit(st: OrbState, outcome: SendOutcome): (r: SubmitResult)
    ensures |st.form.message| < 10 <==> r.sent.None?
    ensures r.sent.None? ==> r.st == st
    ensures r.sent.Some? ==> r.sent.value == st.form
    ensures r.sent.Some? && outcome.SendOk? ==> r.st == st.(isSubmitting := true, isSuccess := true)
    ensures r.sent.Some? && outcome.SendFailed? ==> r.st == st.(isSubmitting := false)
  {
    if |st.form.message| < 10 then SubmitResult(st, None)
    else
      match outcome
      case SendOk => SubmitResult(st.(isSubmitting := true, isSuccess := true), Some(st.form))
      case SendFailed => SubmitResult(st.(isSubmitting := false), Some(st.form))
  }

  /** The form is shown and its submit button enabled. */
  predicate Idle(st: OrbState)
  {
    st.isOpen && !st.isSuccess && !st.isSubmitting
  }

  /**
   * The form's submit event. No form is shown while closed or after
   * success, and the submit button is disabled while `isSubmitting`; at
   * step 2 the form runs `Submit`, before that `NextStep`.
   */
  function FormSubmit(st: OrbState, outcome: SendOutcome): (r: SubmitResult)
    ensures !st.isOpen || st.isSuccess || st.isSubmitting ==> r == SubmitResult(st, None)
    ensures r.sent.Some? ==> st.step == 2 && |st.form.message| >= 10
    ensures Idle(st) && st.step != 2 ==> r == SubmitResult(NextStep(st), None)
    ensures Idle(st) && st.step == 2 ==> r == Submit(st, outcome)
    ensures Idle(st) ==> (r.sent.Some? <==> st.step == 2 && |st.form.message| >= 10)
    ensures Idle(st) && r.sent.Some? ==> r.sent.value == st.form
    ensures st.step <= 2 ==> r.st.step <= 2
    ensures r.st.form == st.form && r.st.isOpen == st.isOpen
  {
    if !st.isOpen || st.isSuccess || st.isSubmitting then SubmitResult(st, None)
    else if st.step == 2 then Submit(st, outcome)
    else SubmitResult(NextStep(st), None)
  }

  /** Which input `handleChange` writes. */
  datatype Field = Name | Email | Message | Honeypot

  /** `handleChange`: one field takes the input's value. */
  function Change(st: OrbState, field: Field, value: string): (r: OrbState)
    ensures r == st.(form := r.form)
    ensures r.form.name == (if field == Name then value else st.form.name)
    ensures r.form.email == (if field == Email then value else st.form.email)
    ensures r.form.message == (if field == Message then value else st.form.message)
    ensures r.form.honeypot == (if field == Honeypot then value else st.form.honeypot)
  {
    var f := st.form;
    st.(form := match field
      case Name => f.(name := value)
      case Email => f.(email := value)
      case Message => f.(message := value)
      case Honeypot => f.(honeypot := value))
  }

  /** The parent's `onToggle`: opening changes nothing else; closing runs the reset effect. */
  function Toggle(st: OrbState, open: bool): (r: OrbState)
    ensures r.isOpen == open
    ensures open ==> r == st.(isOpen := true)
    ensures !open ==> r.step == 0 && !r.isSuccess && r.form == EmptyForm
    ensures r.isSubmitting == st.isSubmitting
  {
    if open then st.(isOpen := true)
    else st.(isOpen := false, step := 0, isSuccess := false, form := EmptyForm)
  }

  /** Filling in valid answers and pressing the button three times posts exactly those answers. */
  lemma WizardPostsAnswers(name: string, email: string, message: string)
    requires |name| >= 2 && LooksLikeEmail(email) && |message| >= 10
    ensures var st := Change(Change(Change(Toggle(Initial, true), Name, name), Email, email), Message, message);
      var s1 := FormSubmit(st, SendOk).st;
      var s2 := FormSubmit(s1, SendOk).st;
      var done := FormSubmit(s2, SendOk);
      && done.sent == Some(ContactForm(name, email, message, ""))
      && done.st.isSuccess
  {
  }

  /**
   * The reset on close keeps `isSubmitting`: after one successful send the
   * button stays disabled, so a reopened form can never be submitted again
   * while the component stays mounted.
   */
  lemma SentFormStaysDisabled(st: OrbState, later: seq<SendOutcome>)
    requires FormSubmit(st, SendOk).sent.Some?
    ensures var reopened := Toggle(Toggle(FormSubmit(st, SendOk).st, false), true);
      && reopened.step == 0 && reopened.isSubmitting
      && forall k :: 0 <= k < |later| ==> FormSubmit(reopened, later[k]) == SubmitResult(reopened, None)
  {
  }

  /** The orb's state held by the component. */
  class Orb {
    var isOpen: bool
    var step: nat
    var form: ContactForm
    var isSubmitting: bool
    var isSuccess: bool

    /** The state as a value. */
    function State(): OrbState
      reads this
    {
      OrbState(isOpen, step, form, isSubmitting, isSuccess)
    }

    constructor ()
      ensures State() == Initial
    {
      isOpen, step, form, isSubmitting, isSuccess := false, 0, EmptyForm, false, false;
    }

    /** `onToggle(open)` from the parent, followed by the reset effect when closing. */
    method OnToggle(open: bool)
      modifies this
      ensures State() == Toggle(old(State()), open)
    {
      isOpen := open;
      if !open {
        step := 0;
        isSuccess := false;
        form := EmptyForm;
      }
    }

    /** `handleChange` for one input. */
    method HandleChange(field: Field, value: string)
      modifies this`form
      ensures State() == Change(old(State()), field, value)
    {
      match field {
        case Name => form := form.(name := value);
        case Email => form := form.(email := value);
        case Message => form := form.(message := value);
        case Honeypot => form := form.(honeypot := value);
      }
    }

    /** The form's submit event, dispatched on the current step. */
    method OnSubmit(outcome: SendOutcome) returns (sent: Option<ContactForm>)
      modifies this`step, this`isSubmitting, this`isSuccess
      ensures SubmitResult(State(), sent) == FormSubmit(old(State()), outcome)
    {
      sent := None;
      if !isOpen || isSuccess || isSubmitting {
        return;
      }
      if step != 2 {
        if step == 0 && |form.name| < 2 {
          return;
        }
        if step == 1 && !LooksLikeEmail(form.email) {
          return;
        }
        step := step + 1;
        return;
      }
      if |form.message| < 10 {
        return;
      }
      isSubmitting := true;
      sent := Some(form);
      match outcome {
        case SendOk => isSuccess := true;
        case SendFailed => isSubmitting := false;
      }
    }
  }
}
