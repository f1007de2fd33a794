/**
  The comment form (components/comment-form.tsx): the state its inputs edit,
  the fallbacks of its numeric inputs, the submit handler that validates the
  state, builds the draft and resets the fields, and the time-unit labels.
  File uploads are left out; avatar and image values are opaque strings.
 */
module CommentForm {
  import opened Wrappers
  import opened CommentTree
  import opened Languages

  /** The avatar a comment gets when none was uploaded. */
  const DefaultAvatar: string := "/diverse-user-avatars.png"

  /** The form's fields, as held in component state. An absent image is the
      empty string here; only the submitted draft turns it into None. */
  datatype FormState = FormState(
    userName: string,
    avatarUrl: string,
    text: string,
    imageUrl: string,
    timeValue: int,
    timeUnit: TimeUnit,
    likes: int,
    loves: int,
    reactions: int)

  /** The state a fresh form starts in. */
  const Initial: FormState := FormState("", "", "", "", 15, Min, 0, 0, 0)

  // ---------------------------------------------------------------------------
  // Numeric inputs
  // ---------------------------------------------------------------------------

  /** JavaScript's `n || fallback` on the result of `Number.parseInt`: None
      stands for NaN; NaN and 0 are falsy and give the fallback. */
  function OrFallback(parsed: Option<int>, fallback: int): int
  {
    if parsed.None? || parsed.value == 0 then fallback else parsed.value
  }

  /** What the time input stores for a parsed value: the value itself, except
      that NaN and 0 become 1. Negative values are kept. */
  function TimeInput(parsed: Option<int>): (v: int)
    ensures v != 0
    ensures parsed.Some? && parsed.value != 0 ==> v == parsed.value
    ensures parsed.None? || parsed == Some(0) ==> v == 1
  {
    OrFallback(parsed, 1)
  }

  /** What a reaction-count input stores: the parsed value, or 0 for NaN.
      Negative values are not clamped. */
  function CountInput(parsed: Option<int>): (v: int)
    ensures parsed.Some? ==> v == parsed.value
    ensures parsed.None? ==> v == 0
  {
    OrFallback(parsed, 0)
  }

  // ---------------------------------------------------------------------------
  // Submission
  // ---------------------------------------------------------------------------

  /** The outcome of the submit handler: the draft passed to `onSubmit`
      (None when the handler returned early) and the state afterwards. */
  datatype SubmitResult = SubmitResult(submitted: Option<Draft>, next: FormState)

  /** A draft as the submit handler builds it: name and text present, an
      avatar always set, and an image either absent or non-empty. */
  predicate WellFormedDraft(d: Draft)
  {
    d.userName != "" && d.text != "" && d.avatarUrl != "" &&
    (d.imageUrl.Some? ==> d.imageUrl.value != "")
  }

  /** The submit handler. An empty name or text submits nothing and leaves
      the state alone. Otherwise the draft carries every field as held,
      except that an empty avatar becomes the default avatar and an empty
      image becomes absent; then every field returns to its initial value. */
  function Submit(st: FormState): (r: SubmitResult)
    ensures r.submitted.None? <==> st.userName == "" || st.text == ""
    ensures r.submitted.None? ==> r.next == st
    ensures r.submitted.Some? ==> r.next == Initial && WellFormedDraft(r.submitted.value)
    ensures r.submitted.Some? ==>
              var d := r.submitted.value;
              d.userName == st.userName && d.text == st.text &&
              d.timeValue == st.timeValue && d.timeUnit == st.timeUnit &&
              d.likes == st.likes && d.loves == st.loves && d.reactions == st.reactions
    ensures r.submitted.Some? ==>
              (st.avatarUrl == "" ==> r.submitted.value.avatarUrl == DefaultAvatar) &&
              (st.avatarUrl != "" ==> r.submitted.value.avatarUrl == st.avatarUrl)
    ensures r.submitted.Some? ==>
              (st.imageUrl == "" ==> r.submitted.value.imageUrl.None?) &&
              (st.imageUrl != "" ==> r.submitted.value.imageUrl == Some(st.imageUrl))
  {
    if st.userName == "" || st.text == "" then
      SubmitResult(None, st)
    else
      var d := Draft(
        st.userName,
        if st.avatarUrl == "" then DefaultAvatar else st.avatarUrl,
        st.text,
        if st.imageUrl == "" then None else Some(st.imageUrl),
        st.timeValue, st.timeUnit, st.likes, st.loves, st.reactions);
      SubmitResult(Some(d), Initial)
  }

  /** The browser's own constraint validation of the form, which runs before
      the submit handler: name and text are `required` (non-empty), the time
      input has `min="1"` and the three count inputs have `min="0"`. */
  predicate PassesValidation(st: FormState)
  {
    st.userName != "" && st.text != "" && st.timeValue >= 1 &&
    st.likes >= 0 && st.loves >= 0 && st.reactions >= 0
  }

  /** Pressing the submit button. A form that fails validation raises no
      submit event, so nothing is submitted and the state stays as it is;
      a valid form goes to the submit handler, which then always submits. */
  function SubmitButton(st: FormState): (r: SubmitResult)
    ensures r.submitted.Some? <==> PassesValidation(st)
    ensures r.submitted.None? ==> r.next == st
    ensures r.submitted.Some? ==>
              var d := r.submitted.value;
              r.next == Initial && WellFormedDraft(d) &&
              d.timeValue >= 1 && d.likes >= 0 && d.loves >= 0 && d.reactions >= 0 &&
              d.userName == st.userName && d.text == st.text && d.timeUnit == st.timeUnit
  {
    if PassesValidation(st) then Submit(st) else SubmitResult(None, st)
  }

  /** The form state that holds exactly the fields of `d` (an absent image as ""). */
  function StateOf(d: Draft): FormState
  {
    FormState(d.userName, d.avatarUrl, d.text, d.imageUrl.GetOr(""),
              d.timeValue, d.timeUnit, d.likes, d.loves, d.reactions)
  }

  /** Round trip: filling the form with the fields of a well-formed draft and
      submitting yields that very draft; the drafts the handler can produce
      are exactly the well-formed ones. */
  lemma SubmitStateOf(d: Draft)
    ensures WellFormedDraft(d) <==> Submit(StateOf(d)).submitted == Some(d)
  {
  }

  /** Round trip through the button: filling the form with the fields of `d`
      and pressing submit yields `d` exactly when `d` is well formed and its
      time and counts pass the inputs' `min` constraints. */
  lemma SubmitButtonStateOf(d: Draft)
    ensures WellFormedDraft(d) && d.timeValue >= 1 &&
            d.likes >= 0 && d.loves >= 0 && d.reactions >= 0
            <==> SubmitButton(StateOf(d)).submitted == Some(d)
  {
  }

  /** The reset state refuses a second submission until a name and text are typed again. */
  lemma SubmitAfterSubmitRejected(st: FormState)
    ensures Submit(Submit(st).next).submitted.None?
  {
  }

  // ---------------------------------------------------------------------------
  // Editing the form
  // ---------------------------------------------------------------------------

  /** A user action on the form. Parsed numbers are `Number.parseInt` results
      (None for NaN); avatar and image values are the finished upload, or ""
      when the remove button is pressed. */
  datatype Event =
    | EditUserName(s: string)
    | EditText(s: string)
    | SetAvatar(s: string)
    | SetImage(s: string)
    | EditTimeValue(parsed: Option<int>)
    | SelectTimeUnit(unit: TimeUnit)
    | EditLikes(parsed: Option<int>)
    | EditLoves(parsed: Option<int>)
    | EditReactions(parsed: Option<int>)
    | SubmitForm

  /** One event: the new state and the draft it submitted, if any. An edit
      submits nothing and changes only its own field; the submit button goes
      through the browser's validation. */
  function Step(st: FormState, ev: Event): (r: SubmitResult)
    ensures !ev.SubmitForm? ==> r.submitted.None?
    ensures ev.EditUserName? ==> r.next == st.(userName := ev.s)
    ensures ev.EditText? ==> r.next == st.(text := ev.s)
    ensures ev.SetAvatar? ==> r.next == st.(avatarUrl := ev.s)
    ensures ev.SetImage? ==> r.next == st.(imageUrl := ev.s)
    ensures ev.EditTimeValue? ==> r.next == st.(timeValue := TimeInput(ev.parsed))
    ensures ev.SelectTimeUnit? ==> r.next == st.(timeUnit := ev.unit)
    ensures ev.EditLikes? ==> r.next == st.(likes := CountInput(ev.parsed))
    ensures ev.EditLoves? ==> r.next == st.(loves := CountInput(ev.parsed))
    ensures ev.EditReactions? ==> r.next == st.(reactions := CountInput(ev.parsed))
    ensures ev.SubmitForm? ==> (r.submitted.Some? <==> PassesValidation(st))
  {
    match ev
    case EditUserName(s) => SubmitResult(None, st.(userName := s))
    case EditText(s) => SubmitResult(None, st.(text := s))
    case SetAvatar(s) => SubmitResult(None, st.(avatarUrl := s))
    case SetImage(s) => SubmitResult(None, st.(imageUrl := s))
    case EditTimeValue(p) => SubmitResult(None, st.(timeValue := TimeInput(p)))
    case SelectTimeUnit(u) => SubmitResult(None, st.(timeUnit := u))
    case EditLikes(p) => SubmitResult(None, st.(likes := CountInput(p)))
    case EditLoves(p) => SubmitResult(None, st.(loves := CountInput(p)))
    case EditReactions(p) => SubmitResult(None, st.(reactions := CountInput(p)))
    case SubmitForm => SubmitButton(st)
  }

  /** The state after `evs` and the drafts submitted on the way, in order.
      Each press of the submit button submits at most one draft, and without
      one nothing is submitted. */
  function Drive(st: FormState, evs: seq<Event>): (r: (FormState, seq<Draft>))
    ensures |r.1| <= |evs|
    ensures (forall i :: 0 <= i < |evs| ==> !evs[i].SubmitForm?) ==> r.1 == []
    decreases |evs|
  {
    if evs == [] then (st, [])
    else
      var r := Step(st, evs[0]);
      var (last, ds) := Drive(r.next, evs[1..]);
      (last, (if r.submitted.Some? then [r.submitted.value] else []) + ds)
  }

  /** From a state whose time value is not 0 (the initial one included), no
      sequence of edits and submissions reaches a time value of 0. A negative
      time value can be stored, but every submitted draft is well formed, with
      a time value of at least 1 and non-negative counts. */
  lemma {:induction false} DriveKeepsTimeNonZero(st: FormState, evs: seq<Event>)
    requires st.timeValue != 0
    ensures Drive(st, evs).0.timeValue != 0
    ensures forall d :: d in Drive(st, evs).1 ==>
              WellFormedDraft(d) && d.timeValue >= 1 &&
              d.likes >= 0 && d.loves >= 0 && d.reactions >= 0
    decreases |evs|
  {
    if evs != [] {
      var r := Step(st, evs[0]);
      DriveKeepsTimeNonZero(r.next, evs[1..]);
    }
  }

  // ---------------------------------------------------------------------------
  // Time-unit labels
  // ---------------------------------------------------------------------------

  /** The built-in label table used when the form has no language. */
  const DefaultLabels: map<string, string> := map[
    "min" := "Минуты",
    "hour" := "Часы",
    "day" := "Дни",
    "week" := "Недели",
    "month" := "Месяцы",
    "year" := "Годы"
  ]

  /** The label of `unit` in the select box. Without a language: the table
      entry, or the unit string itself when the table has none. With a
      language: its translation, or None (`undefined`) when it has none. */
  function TimeUnitLabel(language: Option<Language>, unit: string): (r: Option<string>)
    ensures language.None? ==> r.Some?
    ensures language.None? && unit in DefaultLabels ==> r == Some(DefaultLabels[unit])
    ensures language.None? && unit !in DefaultLabels ==> r == Some(unit)
    ensures language.Some? && unit in language.value.translations ==>
              r == Some(language.value.translations[unit])
    ensures language.Some? ==> (r.Some? <==> unit in language.value.translations)
  {
    match language
    case None =>
      Some(if unit in DefaultLabels && DefaultLabels[unit] != "" then DefaultLabels[unit] else unit)
    case Some(l) =>
      if unit in l.translations then Some(l.translations[unit]) else None
  }

  /** Without a language, the six units get six distinct fixed labels, each
      different from the unit's key, and any other string labels itself. */
  lemma DefaultLabelsForUnits(u: TimeUnit, v: TimeUnit, other: string)
    requires other !in {"min", "hour", "day", "week", "month", "year"}
    ensures TimeUnitLabel(None, UnitKey(u)).value != UnitKey(u)
    ensures u != v ==> TimeUnitLabel(None, UnitKey(u)) != TimeUnitLabel(None, UnitKey(v))
    ensures TimeUnitLabel(None, other) == Some(other)
  {
  }
}
