/**
 * The enhanced contact form: its field record, its submit status and its
 * focused field, updated by the input, focus and submit handlers and by the
 * two timer callbacks `handleSubmit` schedules.
 *
 * The timers are explicit: `pending` holds the callbacks scheduled and not
 * yet run, and the browser may run any of them (`FireTimer`). A submit
 * schedules `ShowSuccess` (after 1000 ms); running it schedules `ResetIdle`
 * (after a further 3000 ms). Navigating to the link is the link returned by
 * `HandleSubmit`.
 */
module EnhancedContact {
  import opened Wrappers
  import opened ContactForm
  import opened Mailto

  datatype Status = Idle | Loading | Success | Error

  /** A scheduled timer callback. */
  datatype Timer = ShowSuccess | ResetIdle

  class Form {
    var formData: FormData
    var formStatus: Status
    var focusedField: Option<Field>
    var pending: seq<Timer>

    /** No handler and no callback ever sets the `error` status. */
    ghost predicate Valid()
      reads this
    {
      formStatus != Error
    }

    /** The submit button is disabled exactly while the status is `loading`. */
    function SubmitDisabled(): bool
      reads this
    {
      formStatus == Loading
    }

    /** Whether the input named `f` is the focused one. */
    function IsFocused(f: Field): bool
      reads this
    {
      focusedField == Some(f)
    }

    constructor ()
      ensures Valid()
      ensures formData == Empty && formStatus == Idle && focusedField == None && pending == []
    {
      formData := Empty;
      formStatus := Idle;
      focusedField := None;
      pending := [];
    }

    /** `handleInputChange`: the input named `f` now holds `v`. */
    method HandleInputChange(f: Field, v: string)
      modifies this
      ensures formData == old(formData).With(f, v)
      ensures formData.Get(f) == v && forall g :: g != f ==> formData.Get(g) == old(formData).Get(g)
      ensures formStatus == old(formStatus) && focusedField == old(focusedField) && pending == old(pending)
      ensures old(Valid()) ==> Valid()
    {
      formData := formData.With(f, v);
    }

    /** `handleSubmit`: status `loading`, the link built from the current fields, the first timer scheduled. */
    method HandleSubmit() returns (link: string)
      modifies this`formStatus, this`pending
      ensures Valid() && formStatus == Loading && SubmitDisabled()
      ensures link == EnhancedLink(old(formData))
      ensures pending == old(pending) + [ShowSuccess]
      ensures formData == old(formData) && focusedField == old(focusedField)
    {
      formStatus := Loading;
      pending := pending + [ShowSuccess];
      link := EnhancedLink(formData);
    }

    /** The browser runs the pending callback at position `k`. */
    method FireTimer(k: nat)
      requires k < |pending|
      modifies this
      ensures old(pending)[k] == ShowSuccess ==>
        && formStatus == Success
        && formData == Empty
        && pending == RemoveAt(old(pending), k) + [ResetIdle]
      ensures old(pending)[k] == ResetIdle ==>
        && formStatus == Idle
        && formData == old(formData)
        && pending == RemoveAt(old(pending), k)
      ensures Valid() && focusedField == old(focusedField)
    {
      match pending[k]
      case ShowSuccess =>
        formStatus := Success;
        formData := Empty;
        pending := RemoveAt(pending, k) + [ResetIdle];
      case ResetIdle =>
        formStatus := Idle;
        pending := RemoveAt(pending, k);
    }

    /** `onFocus` of the input named `f`: it is now the only focused field. */
    method Focus(f: Field)
      modifies this`focusedField
      ensures old(Valid()) ==> Valid()
      ensures focusedField == Some(f)
      ensures forall g :: IsFocused(g) <==> g == f
    {
      focusedField := Some(f);
    }

    /** `onBlur`: no field is focused. */
    method Blur()
      modifies this`focusedField
      ensures old(Valid()) ==> Valid()
      ensures focusedField == None
      ensures forall g :: !IsFocused(g)
    {
      focusedField := None;
    }
  }

  /**
   * A whole submission: the four fields typed, submit, then the two timers in
   * turn. The link carries the typed fields; afterwards the form is empty and
   * idle and no timer is pending.
   */
  method SubmitCycle(d: FormData)
    returns (link: string, status: Status, data: FormData, left: seq<Timer>, disabled: seq<bool>)
    ensures link == EnhancedLink(d)
    ensures Parse(link) == Some(MailtoUri(Address, [("subject", EnhancedSubject(d.subject)), ("body", Body(d))]))
    ensures status == Idle && data == Empty && left == []
    ensures disabled == [false, true, false, false]
  {
    var form := new Form();
    form.HandleInputChange(Name, d.name);
    form.HandleInputChange(Email, d.email);
    form.HandleInputChange(Subject, d.subject);
    form.HandleInputChange(Message, d.message);
    FillIn(d);
    var before := form.SubmitDisabled();
    link := form.HandleSubmit();
    var loading := form.SubmitDisabled();
    form.FireTimer(0);
    var success := form.SubmitDisabled();
    form.FireTimer(0);
    status, data, left := form.formStatus, form.formData, form.pending;
    disabled := [before, loading, success, form.SubmitDisabled()];
    ParseEnhancedLink(d);
  }
}
