/**
 * The plain contact form: its field record and its `isSubmitting` flag.
 * `handleSubmit` only sets the flag and schedules a 1000 ms callback; the
 * callback builds the link from the field values its closure captured when
 * the form was submitted, navigates to it, clears the fields and the flag.
 *
 * `pending` holds, for every scheduled callback not yet run, the record its
 * closure captured; the browser may run any of them (`FireTimer`), which
 * returns the link it navigates to.
 */
module Contact {
  import opened Wrappers
  import opened ContactForm
  import opened Mailto

  class Form {
    var formData: FormData
    var isSubmitting: bool
    var pending: seq<FormData>

    /** The submit button is disabled exactly while a submission is in progress. */
    function SubmitDisabled(): bool
      reads this
    {
      isSubmitting
    }

    constructor ()
      ensures formData == Empty && !isSubmitting && pending == []
    {
      formData := Empty;
      isSubmitting := false;
      pending := [];
    }

    /** `handleInputChange`: the input named `f` now holds `v`. */
    method HandleInputChange(f: Field, v: string)
      modifies this
      ensures formData == old(formData).With(f, v)
      ensures formData.Get(f) == v && forall g :: g != f ==> formData.Get(g) == old(formData).Get(g)
      ensures isSubmitting == old(isSubmitting) && pending == old(pending)
    {
      formData := formData.With(f, v);
    }

    /** `handleSubmit`: the flag set, a callback scheduled over the current fields. */
    method HandleSubmit()
      modifies this
      ensures isSubmitting && SubmitDisabled()
      ensures pending == old(pending) + [old(formData)]
      ensures formData == old(formData)
    {
      isSubmitting := true;
      pending := pending + [formData];
    }

    /**
     * The browser runs the pending callback at position `k`: the link is
     * built from the record captured at submit time, and in the same step
     * the fields are cleared and the flag reset.
     */
    method FireTimer(k: nat) returns (link: string)
      requires k < |pending|
      modifies this
      ensures link == PlainLink(old(pending)[k])
      ensures formData == Empty && !isSubmitting && !SubmitDisabled()
      ensures pending == RemoveAt(old(pending), k)
    {
      link := PlainLink(pending[k]);
      formData := Empty;
      isSubmitting := false;
      pending := RemoveAt(pending, k);
    }
  }

  /**
   * A submission with an edit made during the delay: the link carries the
   * fields as they were at submit time, the edit is lost, and the form ends
   * empty and enabled.
   */
  method EditDuringDelay(d: FormData, f: Field, v: string)
    returns (link: string, data: FormData, disabled: seq<bool>)
    ensures link == PlainLink(d)
    ensures Parse(link) == Some(MailtoUri(Address, [("subject", d.subject), ("body", Body(d))]))
    ensures data == Empty
    ensures disabled == [false, true, true, false]
  {
    var form := new Form();
    form.HandleInputChange(Name, d.name);
    form.HandleInputChange(Email, d.email);
    form.HandleInputChange(Subject, d.subject);
    form.HandleInputChange(Message, d.message);
    FillIn(d);
    var before := form.SubmitDisabled();
    form.HandleSubmit();
    var submitting := form.SubmitDisabled();
    form.HandleInputChange(f, v);
    var editing := form.SubmitDisabled();
    link := form.FireTimer(0);
    data := form.formData;
    disabled := [before, submitting, editing, form.SubmitDisabled()];
    ParsePlainLink(d);
  }
}
