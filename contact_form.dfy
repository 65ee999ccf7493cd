/** The contact form (script.js, handleContactForm and the `tel` listener): the
    fields, the submit button, and the submission flow around one request. The
    network response is an input. */
module ContactForm {
  import opened JsValues
  import opened PhoneFormat
  import opened Validation
  import opened Notification

  /** How the request ended: `response.ok`, a response that is not ok, or a
      rejected `fetch`. */
  datatype Response = Acknowledged | NotOk | Threw

  /** The values of the form's named controls. */
  datatype Fields = Fields(name: string, phone: string, email: string, course: string, message: string)

  /** `new FormData(contactForm)`: every control is present, so nothing is `null`. */
  function AsEntry(f: Fields): (e: Entry)
    ensures e.name == Some(f.name) && e.phone == Some(f.phone) && e.email == Some(f.email)
    ensures e.course == Some(f.course) && e.message == Some(f.message)
  {
    Entry(Some(f.name), Some(f.phone), Some(f.email), Some(f.course), Some(f.message))
  }

  /** On the form, a required field is missing exactly when its control is empty. */
  lemma FormMissingFields(f: Fields)
    ensures Validate(AsEntry(f)) == MissingFields <==> f.name == [] || f.phone == [] || f.message == []
  {
  }

  const SendingLabel := "<i class=\"fas fa-spinner fa-spin\"></i> กำลังส่ง..."
  const MissingFieldsText := "กรุณากรอกข้อมูลที่จำเป็นให้ครบถ้วน"
  const InvalidPhoneText := "กรุณากรอกเบอร์โทรศัพท์ให้ถูกต้อง"
  const InvalidEmailText := "กรุณากรอกอีเมลให้ถูกต้อง"
  const SentText := "ส่งข้อความเรียบร้อยแล้ว เราจะติดต่อกลับโดยเร็วที่สุด"
  const FailedText := "เกิดข้อผิดพลาดในการส่งข้อความ กรุณาลองใหม่อีกครั้ง"

  /** The error notification a failed check shows. */
  function RejectionText(o: Outcome): (t: string)
    requires o != Ok
    ensures t == MissingFieldsText <==> o == MissingFields
    ensures t == InvalidPhoneText <==> o == InvalidPhone
    ensures t == InvalidEmailText <==> o == InvalidEmail
  {
    match o
    case MissingFields => MissingFieldsText
    case InvalidPhone => InvalidPhoneText
    case InvalidEmail => InvalidEmailText
  }

  /** The notification (text, type) that ends a request. */
  function SettleNotice(r: Response): (n: (string, string))
    ensures r == Acknowledged ==> n == (SentText, "success")
    ensures r != Acknowledged ==> n == (FailedText, "error")
  {
    if r == Acknowledged then (SentText, "success") else (FailedText, "error")
  }

  /** A response that is not ok is rethrown, so it is reported like a network error. */
  lemma NotOkReportedLikeThrow()
    ensures SettleNotice(NotOk) == SettleNotice(Threw)
  {
  }

  class Form {
    var fields: Fields
    /** The values `reset()` restores. */
    const defaults: Fields
    /** `submitButton.innerHTML`. */
    var buttonLabel: string
    /** `submitButton.disabled`. */
    var disabled: bool
    /** `originalText` while a request is outstanding. */
    var pending: Option<string>

    /** The button is disabled exactly while a request is outstanding. */
    ghost predicate Valid()
      reads this
    {
      disabled == pending.Some?
    }

    constructor (defaults: Fields, buttonLabel: string)
      ensures Valid() && this.defaults == defaults && fields == defaults
      ensures this.buttonLabel == buttonLabel && pending == None
    {
      this.defaults := defaults;
      fields := defaults;
      this.buttonLabel := buttonLabel;
      disabled := false;
      pending := None;
    }

    /** The user edits the controls; nothing of the script runs. */
    method Fill(f: Fields)
      modifies this
      ensures fields == f
      ensures buttonLabel == old(buttonLabel) && disabled == old(disabled) && pending == old(pending)
    {
      fields := f;
    }

    /** The `input` listener of the `tel` control: the typed text is replaced by
        its formatted digits. */
    method TypePhone(raw: string)
      modifies this
      ensures fields == old(fields).(phone := FormatPhone(raw))
      ensures PhoneAccepted(fields.phone) <==> |Digits(raw)| == 9 || |Digits(raw)| == 10
      ensures buttonLabel == old(buttonLabel) && disabled == old(disabled) && pending == old(pending)
    {
      fields := fields.(phone := FormatPhone(raw));
      FormattedPhoneAccepted(raw);
    }

    /** The submit handler up to the request: validate, and either show the
        error and stop, or save the label, show the busy label, disable the
        button and leave one request outstanding. A disabled submit button
        keeps the browser from submitting, so no request is outstanding here. */
    method Send(n: Notifier) returns (outcome: Outcome)
      requires Valid() && n.Valid() && pending == None
      modifies this, n
      ensures Valid() && n.Valid() && fields == old(fields)
      ensures outcome == Validate(AsEntry(fields))
      ensures outcome != Ok ==>
        buttonLabel == old(buttonLabel) && !disabled && pending == None &&
        n.slot == Some(Toast(old(n.nextId), RejectionText(outcome), "error")) &&
        n.nextId == old(n.nextId) + 1
      ensures outcome == Ok ==>
        pending == Some(old(buttonLabel)) && buttonLabel == SendingLabel && disabled &&
        n.slot == old(n.slot) && n.nextId == old(n.nextId)
    {
      outcome := Validate(AsEntry(fields));
      if outcome != Ok {
        var _ := n.Show(RejectionText(outcome), "error");
        return;
      }
      pending := Some(buttonLabel);
      buttonLabel := SendingLabel;
      disabled := true;
    }

    /** The `then` / `catch` / `finally` chain: report the result, reset the
        form only when the response was ok, and always restore the button. */
    method Settle(r: Response, n: Notifier)
      requires Valid() && n.Valid() && pending.Some?
      modifies this, n
      ensures Valid() && n.Valid()
      ensures buttonLabel == old(pending.value) && !disabled && pending == None
      ensures fields == if r == Acknowledged then defaults else old(fields)
      ensures n.slot == Some(Toast(old(n.nextId), SettleNotice(r).0, SettleNotice(r).1))
      ensures n.nextId == old(n.nextId) + 1
    {
      var notice := SettleNotice(r);
      var _ := n.Show(notice.0, notice.1);
      if r == Acknowledged {
        fields := defaults;
      }
      buttonLabel := pending.value;
      disabled := false;
      pending := None;
    }

    /** One submission from the submit event to the end of its request. */
    method Submit(r: Response, n: Notifier) returns (outcome: Outcome)
      requires Valid() && n.Valid() && pending == None
      modifies this, n
      ensures Valid() && n.Valid()
      ensures outcome == Validate(AsEntry(old(fields)))
      // the button ends as it started, whatever happened
      ensures buttonLabel == old(buttonLabel) && !disabled && pending == None
      // the form is cleared only by an acknowledged request
      ensures fields == if outcome == Ok && r == Acknowledged then defaults else old(fields)
      ensures n.nextId == old(n.nextId) + 1
      ensures n.slot == Some(
        if outcome == Ok then Toast(old(n.nextId), SettleNotice(r).0, SettleNotice(r).1)
        else Toast(old(n.nextId), RejectionText(outcome), "error"))
    {
      outcome := Send(n);
      if outcome == Ok {
        Settle(r, n);
      }
    }
  }
}
