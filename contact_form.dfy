/**
 The contact form and navigation state of the portfolio page: the three form
 fields, the "thank you" acknowledgement flag and the mobile-menu flag, with
 one method per event the page reacts to.
 */
module ContactForm {

  /** The `name` attributes of the three form controls. */
  datatype Field = Name | Email | Message

  /** The `formData` record; React replaces it as a whole on every edit. */
  datatype FormData = FormData(name: string, email: string, message: string)
  {
    function Get(f: Field): string
    {
      match f
      case Name => name
      case Email => email
      case Message => message
    }

    /** `{ ...prev, [f]: v }`: a copy of this record with field `f` set to `v`. */
    function With(f: Field, v: string): (r: FormData)
      ensures r.Get(f) == v
      ensures forall g :: g != f ==> r.Get(g) == Get(g)
    {
      match f
      case Name => this.(name := v)
      case Email => this.(email := v)
      case Message => this.(message := v)
    }

    /** The truthiness test `name && email && message`: only `""` is falsy among strings. */
    predicate IsComplete()
      ensures IsComplete() <==> forall f: Field :: Get(f) != ""
    {
      assert Get(Name) == name && Get(Email) == email && Get(Message) == message;
      name != "" && email != "" && message != ""
    }
  }

  const Blank := FormData("", "", "")

  /**
   The component's state. The ghost fields `pendingTimers` and `submissions`
   are not component state: `pendingTimers` is the part of the event loop the
   page depends on, the acknowledgement timers scheduled and not yet fired,
   oldest first, each named by the ordinal of the accepted submission that
   scheduled it. All are scheduled with the same delay, so they fire in the
   order they were scheduled. Nothing ever cancels one.
   */
  class ContactFormState {
    var formData: FormData
    var isSubmitted: bool
    var activeNav: bool
    ghost var pendingTimers: seq<nat>
    ghost var submissions: nat

    ghost predicate Valid()
      reads this
    {
      && (forall k :: 0 <= k < |pendingTimers| ==> 1 <= pendingTimers[k] <= submissions)
      && (forall j, k :: 0 <= j < k < |pendingTimers| ==> pendingTimers[j] < pendingTimers[k])
      && (pendingTimers != [] ==> pendingTimers[|pendingTimers| - 1] == submissions)
      && (isSubmitted ==> formData == Blank && pendingTimers != [])
    }

    /** The state on page load. */
    constructor ()
      ensures Valid()
      ensures formData == Blank && !isSubmitted && !activeNav
      ensures pendingTimers == [] && submissions == 0
    {
      formData := Blank;
      isSubmitted := false;
      activeNav := false;
      pendingTimers := [];
      submissions := 0;
    }

    /** `handleInputChange`: store the edited value and drop any acknowledgement. */
    method HandleInputChange(field: Field, value: string)
      requires Valid()
      modifies this
      ensures Valid()
      ensures formData.Get(field) == value
      ensures forall g :: g != field ==> formData.Get(g) == old(formData.Get(g))
      ensures !isSubmitted
      ensures activeNav == old(activeNav)
      ensures pendingTimers == old(pendingTimers) && submissions == old(submissions)
    {
      formData := formData.With(field, value);
      if isSubmitted {
        isSubmitted := false;
      }
    }

    /**
     `handleSubmit`: accept a complete form (acknowledge it, clear the fields
     and schedule the timer that hides the acknowledgement), or report that a
     field is missing and change nothing. `alerted` is the `alert` call.
     */
    method HandleSubmit() returns (alerted: bool)
      requires Valid()
      modifies this
      ensures Valid()
      ensures alerted <==> exists f: Field :: old(formData.Get(f)) == ""
      ensures alerted ==> unchanged(this)
      ensures !alerted ==> && isSubmitted && formData == Blank
                           && submissions == old(submissions) + 1
                           && pendingTimers == old(pendingTimers) + [submissions]
                           && activeNav == old(activeNav)
    {
      if formData.IsComplete() {
        isSubmitted := true;
        formData := Blank;
        submissions := submissions + 1;
        pendingTimers := pendingTimers + [submissions];
        alerted := false;
      } else {
        alerted := true;
      }
    }

    /**
     The callback passed to `setTimeout`: the oldest pending timer fires and
     hides the acknowledgement, whichever submission scheduled it. When a
     later submission is still waiting for its own timer, the acknowledgement
     it cleared belongs to that later submission.
     */
    method TimerFire()
      requires Valid() && pendingTimers != []
      modifies this
      ensures Valid()
      ensures !isSubmitted
      ensures pendingTimers == old(pendingTimers[1..])
      ensures formData == old(formData) && activeNav == old(activeNav) && submissions == old(submissions)
      ensures old(|pendingTimers|) > 1 ==> old(pendingTimers[0]) < submissions
    {
      pendingTimers := pendingTimers[1..];
      isSubmitted := false;
    }

    /** The menu button: open or close the mobile navigation. */
    method ToggleMenu()
      requires Valid()
      modifies this
      ensures Valid()
      ensures activeNav == !old(activeNav)
      ensures formData == old(formData) && isSubmitted == old(isSubmitted)
      ensures pendingTimers == old(pendingTimers) && submissions == old(submissions)
    {
      activeNav := !activeNav;
    }

    /** A link of the mobile navigation: close the menu. */
    method CloseMenu()
      requires Valid()
      modifies this
      ensures Valid()
      ensures !activeNav
      ensures formData == old(formData) && isSubmitted == old(isSubmitted)
      ensures pendingTimers == old(pendingTimers) && submissions == old(submissions)
    {
      activeNav := false;
    }
  }

  /** Submitting with the name left empty is refused and leaves the fields as typed. */
  method RejectedSubmitScenario() returns (form: ContactFormState, alerted: bool)
    ensures alerted && !form.isSubmitted
    ensures form.formData == FormData("", "a@b.com", "hi")
  {
    form := new ContactFormState();
    form.HandleInputChange(Email, "a@b.com");
    form.HandleInputChange(Message, "hi");
    assert form.formData.Get(Name) == "";
    alerted := form.HandleSubmit();
  }

  /** The user types `d` into the three fields, one after the other. */
  method FillIn(form: ContactFormState, d: FormData)
    requires form.Valid()
    modifies form
    ensures form.Valid()
    ensures form.formData == d && !form.isSubmitted
    ensures form.activeNav == old(form.activeNav)
    ensures form.pendingTimers == old(form.pendingTimers) && form.submissions == old(form.submissions)
  {
    form.HandleInputChange(Name, d.name);
    form.HandleInputChange(Email, d.email);
    form.HandleInputChange(Message, d.message);
    assert form.formData.Get(Name) == d.name;
    assert form.formData.Get(Email) == d.email;
  }

  /**
   Two submissions in a row, then the first timer fires: the acknowledgement
   of the second submission is hidden early, while the second timer is still
   pending.
   */
  method StaleTimerScenario() returns (form: ContactFormState)
    ensures form.Valid()
    ensures form.submissions == 2 && form.pendingTimers == [2]
    ensures !form.isSubmitted
  {
    form := new ContactFormState();
    FillIn(form, FormData("A", "a@b.com", "hi"));
    var alerted := form.HandleSubmit();
    assert !alerted && form.pendingTimers == [1];
    FillIn(form, FormData("B", "b@c.com", "again"));
    alerted := form.HandleSubmit();
    assert !alerted && form.isSubmitted && form.pendingTimers == [1, 2];
    form.TimerFire();
  }
}
