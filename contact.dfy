/** The contact form's controller (src/sections/Contact.jsx): three text
    fields, a loading flag while a message is being sent, and an alert that
    reports the outcome and is hidden again by a timer.

    The e-mail service is not modelled; each send is recorded with its
    payload, and its outcome is an input of the step that settles it. Each
    timer the alert schedules is counted, and its firing is a step of its own.
 */
module Contact {

  /** The form's inputs, named "name", "email" and "message" in the markup. */
  datatype Field = Name | Email | Message

  datatype FormData = FormData(name: string, email: string, message: string)

  /** The value of one field, `formData[e.target.name]`. */
  function Get(f: FormData, field: Field): string
  {
    match field
    case Name => f.name
    case Email => f.email
    case Message => f.message
  }

  /** `{ ...formData, [field]: value }`: the named field takes the value and
      the other two keep theirs. */
  function Update(f: FormData, field: Field, value: string): (r: FormData)
    ensures Get(r, field) == value
    ensures forall other :: other != field ==> Get(r, other) == Get(f, other)
  {
    match field
    case Name => f.(name := value)
    case Email => f.(email := value)
    case Message => f.(message := value)
  }

  /** The form as it is first rendered and after a successful send. */
  const EMPTY_FORM: FormData := FormData("", "", "")

  /** The markup marks every field `required`: the browser only submits when
      none is empty and, for the e-mail field, when its own format check
      passes. */
  predicate RequiredFilled(f: FormData)
  {
    f.name != "" && f.email != "" && f.message != ""
  }

  /** The two kinds of alert, "success" and "danger". */
  datatype AlertType = Success | Danger
  {
    function Name(): string
    {
      match this
      case Success => "success"
      case Danger => "danger"
    }
  }

  const SENT_TEXT: string := "You message has been sent!"
  const FAILED_TEXT: string := "Somthing went wrong!"

  const SERVICE_ID: string := "service_79b0nyj"
  const TEMPLATE_ID: string := "template_17us8im"
  const TO_NAME: string := "Shubham"
  const TO_EMAIL: string := "shubham.roy1996.sr@gmail.com"

  /** The template variables of one e-mail. */
  datatype TemplateParams = TemplateParams(
    fromName: string, toName: string, fromEmail: string, toEmail: string, message: string)

  /** One call of the e-mail service: which service, which template, what variables. */
  datatype SendRequest = SendRequest(serviceId: string, templateId: string, params: TemplateParams)

  /** How a send ends: the awaited promise resolves or rejects. */
  datatype SendOutcome = Delivered | Failed

  /** The request `handleSubmit` issues for the form's current contents. */
  function Payload(f: FormData): SendRequest
  {
    SendRequest(SERVICE_ID, TEMPLATE_ID, TemplateParams(f.name, TO_NAME, f.email, TO_EMAIL, f.message))
  }

  /** The form data a template's variables came from. */
  function Sender(p: TemplateParams): FormData
  {
    FormData(p.fromName, p.fromEmail, p.message)
  }

  /** The payload carries the whole form and nothing else of the user's:
      reading the sender back from it gives the form, and every other part is
      fixed, so two forms give the same request only if they are equal. */
  lemma PayloadCarriesForm(f: FormData, g: FormData)
    ensures Sender(Payload(f).params) == f
    ensures Payload(f).serviceId == SERVICE_ID && Payload(f).templateId == TEMPLATE_ID
    ensures Payload(f).params.toName == TO_NAME && Payload(f).params.toEmail == TO_EMAIL
    ensures Payload(f) == Payload(g) <==> f == g
  {
  }

  /** The submit button's label. */
  function ButtonLabel(isLoading: bool): (r: string)
    ensures r == "Sending..." <==> isLoading
    ensures r == "Send" <==> !isLoading
  {
    if !isLoading then "Send" else "Sending..."
  }

  /** The component's state. `pendingHides` counts the hide timers scheduled
      and not yet fired; `sent` lists every request issued, in order, and
      `inFlight` counts those not yet settled. */
  class ContactForm {
    var formData: FormData
    var isLoading: bool
    var showAlert: bool
    var alertType: AlertType
    var alertMessage: string
    var pendingHides: nat
    var sent: seq<SendRequest>
    var inFlight: nat

    /** A visible alert always has a timer that will hide it, and only a
        request that was issued can be awaiting its outcome. */
    predicate Valid()
      reads this
    {
      && (showAlert ==> pendingHides > 0)
      && inFlight <= |sent|
    }

    /** Initial state: empty fields, not loading, no alert, type "success". */
    constructor ()
      ensures Valid()
      ensures formData == EMPTY_FORM && !isLoading
      ensures !showAlert && alertType == Success && alertType.Name() == "success" && alertMessage == ""
      ensures pendingHides == 0 && sent == [] && inFlight == 0
      ensures Label() == "Send"
    {
      formData := EMPTY_FORM;
      isLoading := false;
      showAlert := false;
      alertType := Success;
      alertMessage := "";
      pendingHides := 0;
      sent := [];
      inFlight := 0;
    }

    /** The submit button's current label. */
    function Label(): string
      reads this
    {
      ButtonLabel(isLoading)
    }

    /** `handleChange`: the edited field takes the new value. */
    method HandleChange(field: Field, value: string)
      modifies this`formData
      ensures formData == Update(old(formData), field, value)
    {
      formData := Update(formData, field, value);
    }

    /** `showAlertMessage`: set the type and text, show the alert and
        schedule one more hide. */
    method ShowAlertMessage(t: AlertType, message: string)
      requires Valid()
      modifies this`alertType, this`alertMessage, this`showAlert, this`pendingHides
      ensures Valid()
      ensures alertType == t && alertMessage == message && showAlert
      ensures pendingHides == old(pendingHides) + 1
    {
      alertType := t;
      alertMessage := message;
      showAlert := true;
      pendingHides := pendingHides + 1;
    }

    /** One scheduled hide fires: the alert disappears, its type and text
        stay. Any pending timer may fire, however recent the alert is. */
    method HideTimerFires()
      requires Valid() && pendingHides > 0
      modifies this`showAlert, this`pendingHides
      ensures Valid()
      ensures !showAlert && pendingHides == old(pendingHides) - 1
    {
      showAlert := false;
      pendingHides := pendingHides - 1;
    }

    /** The call of the e-mail service; the model only records it. It is
        only ever issued while the form is loading. */
    method Send(request: SendRequest)
      requires isLoading
      modifies this`sent
      ensures sent == old(sent) + [request]
    {
      sent := sent + [request];
    }

    /** The first half of `handleSubmit`, up to the awaited send: the form
        starts loading, then exactly one request carrying the form is issued. */
    method StartSubmit() returns (request: SendRequest)
      requires Valid()
      modifies this`isLoading, this`sent, this`inFlight
      ensures Valid()
      ensures isLoading && Label() == "Sending..."
      ensures request == Payload(formData)
      ensures sent == old(sent) + [request] && inFlight == old(inFlight) + 1
    {
      isLoading := true;
      request := Payload(formData);
      Send(request);
      inFlight := inFlight + 1;
    }

    /** The second half of `handleSubmit`, once the send settles: loading
        ends; on delivery the fields are cleared and a success alert shows,
        on failure the fields stay and a danger alert shows. Only a send
        that was started can settle, once. */
    method FinishSubmit(outcome: SendOutcome)
      requires Valid() && inFlight > 0
      modifies this`isLoading, this`formData, this`alertType, this`alertMessage, this`showAlert, this`pendingHides,
               this`inFlight
      ensures Valid()
      ensures !isLoading && Label() == "Send" && showAlert && pendingHides == old(pendingHides) + 1
      ensures inFlight == old(inFlight) - 1
      ensures outcome == Delivered ==>
                && formData == EMPTY_FORM && alertType == Success && alertMessage == SENT_TEXT
                && alertType.Name() == "success"
      ensures outcome == Failed ==>
                && formData == old(formData) && alertType == Danger && alertMessage == FAILED_TEXT
                && alertType.Name() == "danger"
    {
      isLoading := false;
      inFlight := inFlight - 1;
      if outcome == Delivered {
        formData := EMPTY_FORM;
        ShowAlertMessage(Success, SENT_TEXT);
      } else {
        ShowAlertMessage(Danger, FAILED_TEXT);
      }
    }

    /** `handleSubmit` when nothing happens while the send is awaited. */
    method HandleSubmit(outcome: SendOutcome) returns (request: SendRequest)
      requires Valid()
      modifies this
      ensures Valid()
      ensures request == Payload(old(formData)) && sent == old(sent) + [request]
      ensures inFlight == old(inFlight)
      ensures !isLoading && showAlert && pendingHides == old(pendingHides) + 1
      ensures outcome == Delivered ==>
                formData == EMPTY_FORM && alertType == Success && alertMessage == SENT_TEXT
      ensures outcome == Failed ==>
                formData == old(formData) && alertType == Danger && alertMessage == FAILED_TEXT
    {
      request := StartSubmit();
      FinishSubmit(outcome);
    }

    /** Pressing the submit button: the browser's required-field check runs
        first and stops an incomplete form before any request is made. */
    method Submit(outcome: SendOutcome, emailFormatValid: bool)
      requires Valid()
      modifies this
      ensures Valid()
      ensures !(RequiredFilled(old(formData)) && emailFormatValid) ==> unchanged(this)
      ensures RequiredFilled(old(formData)) && emailFormatValid ==>
                && sent == old(sent) + [Payload(old(formData))] && inFlight == old(inFlight)
                && !isLoading && showAlert && pendingHides == old(pendingHides) + 1
      ensures RequiredFilled(old(formData)) && emailFormatValid && outcome == Delivered ==>
                formData == EMPTY_FORM && alertType == Success && alertMessage == SENT_TEXT
      ensures RequiredFilled(old(formData)) && emailFormatValid && outcome == Failed ==>
                formData == old(formData) && alertType == Danger && alertMessage == FAILED_TEXT
    {
      if RequiredFilled(formData) && emailFormatValid {
        var _ := HandleSubmit(outcome);
      }
    }
  }

  /** The hide timers are never cancelled: when a second alert follows the
      first within five seconds, the first alert's timer hides the second one
      while that one's own timer is still pending. */
  method EarlierTimerHidesLaterAlert()
  {
    var c := new ContactForm();
    c.HandleChange(Name, "Ann");
    c.HandleChange(Email, "ann@example.com");
    c.HandleChange(Message, "Hello");
    assert RequiredFilled(c.formData);
    c.Submit(Failed, true);
    assert c.showAlert && c.alertType == Danger && RequiredFilled(c.formData);
    c.Submit(Delivered, true);
    assert c.showAlert && c.alertType == Success && c.pendingHides == 2;
    c.HideTimerFires();
    assert !c.showAlert && c.pendingHides == 1;
    assert c.alertMessage == SENT_TEXT;
  }
}
