/** The registration page: the full name it sends and its two-step state machine (request a
    code, then verify it and create the account). */
module Register {
  import opened Text

  const OtpFailed: string := "Failed to send OTP. Please try again."
  const RegisterFailed: string := "Registration failed. Please try again."

  /** The form fields, by their `name` attribute. */
  const FormKeys: set<string> := {"firstName", "middleName", "lastName", "email", "mobile", "place", "password"}

  /** `` `${first} ${middle} ${last}`.replace(/\s+/g, ' ').trim() `` */
  function FullName(first: string, middle: string, last: string): string {
    Trim(Collapse(first + " " + middle + " " + last))
  }

  /** The full name neither starts nor ends with white space, its only white space is the
      plain space, and no two white-space characters are adjacent. */
  lemma {:induction false} FullNameClean(first: string, middle: string, last: string)
    ensures var n := FullName(first, middle, last);
      && (|n| > 0 ==> !IsSpace(n[0]) && !IsSpace(n[|n| - 1]))
      && (forall i :: 0 <= i < |n| && IsSpace(n[i]) ==> n[i] == ' ')
      && (forall i :: 0 < i < |n| ==> !(IsSpace(n[i - 1]) && IsSpace(n[i])))
  {
    var joined := first + " " + middle + " " + last;
    CollapsePlainSpaces(joined);
    CollapseNoDouble(joined);
    TrimKeepsSpacing(Collapse(joined));
  }

  /** Two spaces before a word collapse to one. */
  lemma {:induction false} CollapseSpacesWord(spaces: string, w: string)
    requires |spaces| > 0 && forall i :: 0 <= i < |spaces| ==> IsSpace(spaces[i])
    requires |w| > 0 && NoSpace(w)
    ensures Collapse(spaces + w) == " " + w
  {
    var s := spaces + w;
    assert s[1..] == spaces[1..] + w;
    TrimStartSpaces(spaces[1..], w);
    CollapseNoSpace(w);
  }

  lemma {:induction false} TrimStartSpaces(spaces: string, w: string)
    requires forall i :: 0 <= i < |spaces| ==> IsSpace(spaces[i])
    requires |w| > 0 && !IsSpace(w[0])
    ensures TrimStart(spaces + w) == w
  {
    if |spaces| > 0 {
      assert (spaces + w)[1..] == spaces[1..] + w;
      TrimStartSpaces(spaces[1..], w);
    } else {
      assert spaces + w == w;
    }
  }

  /** With one-word first and last names and no middle name, the full name is
      "First Last". */
  lemma {:induction false} FullNameNoMiddle(first: string, last: string)
    requires |first| > 0 && NoSpace(first) && |last| > 0 && NoSpace(last)
    ensures FullName(first, "", last) == first + " " + last
  {
    CollapseNoMiddle(first, last);
    TrimUntrimmed(first + " " + last);
  }

  lemma {:induction false} CollapseNoMiddle(first: string, last: string)
    requires NoSpace(first) && |last| > 0 && NoSpace(last)
    ensures Collapse(first + " " + "" + " " + last) == first + " " + last
  {
    var tail := "  " + last;
    assert first + " " + "" + " " + last == first + tail;
    CollapseWordThen(first, tail);
    CollapseSpacesWord("  ", last);
    assert first + (" " + last) == first + " " + last;
  }

  /** How a request ended: answered with a message, or failed with the message of the error
      response ("" when there is none). */
  datatype Outcome = Answered(message: string) | Failed(message: string)

  /** `err.response?.data?.message || fallback` */
  function ErrorText(message: string, fallback: string): (r: string)
    ensures message != "" ==> r == message
    ensures message == "" ==> r == fallback
  {
    if message != "" then message else fallback
  }

  /** The body of the registration request. */
  datatype RegisterBody = RegisterBody(name: string, email: string, password: string,
                                       mobile: string, place: string, otp: string)

  /** The body `handleVerifyAndRegister` posts: the full name and the other fields as typed. */
  function BodyOf(formData: map<string, string>, otp: string): (b: RegisterBody)
    requires FormKeys <= formData.Keys
  {
    RegisterBody(FullName(formData["firstName"], formData["middleName"], formData["lastName"]),
                 formData["email"], formData["password"], formData["mobile"], formData["place"], otp)
  }

  class RegisterForm {
    var step: int
    var formData: map<string, string>
    var otp: string
    var error: string
    var message: string
    var isLoading: bool

    /** Every field of the form is present: the initial state has them all and a change
        only replaces one. */
    predicate Valid()
      reads this
    {
      FormKeys <= formData.Keys
    }

    constructor()
      ensures step == 1 && otp == "" && error == "" && message == "" && !isLoading
      ensures formData.Keys == FormKeys && forall k :: k in formData ==> formData[k] == ""
      ensures Valid()
    {
      step := 1;
      formData := map["firstName" := "", "middleName" := "", "lastName" := "", "email" := "",
                      "mobile" := "", "place" := "", "password" := ""];
      otp := "";
      error := "";
      message := "";
      isLoading := false;
    }

    /** `handleInputChange`: only the named field changes. */
    method HandleInputChange(name: string, value: string)
      modifies this`formData
      ensures formData == old(formData)[name := value]
      ensures old(Valid()) ==> Valid()
    {
      formData := formData[name := value];
    }

    /** The code input's `onChange`. */
    method HandleOtpChange(value: string)
      modifies this`otp
      ensures otp == value
    {
      otp := value;
    }

    /** `handleRequestOtp` up to the request: loading starts, both messages are cleared and
        the e-mail address is sent. */
    method StartRequestOtp() returns (email: string)
      requires Valid()
      modifies this`isLoading, this`error, this`message
      ensures isLoading && error == "" && message == ""
      ensures email == formData["email"]
    {
      isLoading := true;
      error := "";
      message := "";
      email := formData["email"];
    }

    /** `handleRequestOtp` once the request ends: an answer shows its message and moves to
        step 2; a failure shows the error and keeps the step. Loading ends in both cases. */
    method FinishRequestOtp(outcome: Outcome)
      modifies this`isLoading, this`error, this`message, this`step
      ensures !isLoading
      ensures outcome.Answered? ==> step == 2 && message == outcome.message && error == old(error)
      ensures outcome.Failed? ==> step == old(step) && error == ErrorText(outcome.message, OtpFailed) && message == old(message)
    {
      match outcome {
        case Answered(m) =>
          message := m;
          step := 2;
        case Failed(m) =>
          error := ErrorText(m, OtpFailed);
      }
      isLoading := false;
    }

    /** `handleVerifyAndRegister` up to the request: loading starts, the error is cleared and
        the body built from the form is sent. */
    method StartVerifyAndRegister() returns (body: RegisterBody)
      requires Valid()
      modifies this`isLoading, this`error
      ensures isLoading && error == ""
      ensures body == BodyOf(formData, otp)
    {
      isLoading := true;
      error := "";
      body := BodyOf(formData, otp);
    }

    /** `handleVerifyAndRegister` once the request ends: on success it shows the message and
        keeps loading until the page navigates away; on failure it shows the error and stops
        loading, keeping the previous message. */
    method FinishVerifyAndRegister(outcome: Outcome)
      modifies this`isLoading, this`error, this`message
      ensures outcome.Answered? ==> isLoading == old(isLoading) && message == outcome.message && error == old(error)
      ensures outcome.Failed? ==> !isLoading && error == ErrorText(outcome.message, RegisterFailed) && message == old(message)
    {
      if outcome.Answered? {
        message := outcome.message;
      } else {
        error := ErrorText(outcome.message, RegisterFailed);
        isLoading := false;
      }
    }

    /** The Back button: always returns to step 1. */
    method Back()
      modifies this`step
      ensures step == 1
    {
      step := 1;
    }
  }
}
