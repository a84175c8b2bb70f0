/** The password reset form: the checks before the update request, and
    what the page does with the request's answer. */
module UpdatePassword {
  import opened Wrappers

  const TooShort := "Password must be at least 6 characters long."
  const Mismatch := "Passwords do not match."

  /** The checks of `handlePasswordUpdate`, in order: an update request
      with the password, or the message that stops it. */
  datatype Check = Refused(message: string) | Request(password: string)

  function CheckPasswords(password: string, confirmPassword: string): (r: Check)
    ensures r == Refused(TooShort) <==> |password| < 6
    ensures r == Refused(Mismatch) <==> |password| >= 6 && password != confirmPassword
    ensures r.Request? <==> |password| >= 6 && password == confirmPassword
    ensures r.Request? ==> r.password == password
  {
    if |password| < 6 then Refused(TooShort)
    else if password != confirmPassword then Refused(Mismatch)
    else Request(password)
  }

  /** The page's `error`, `isSubmitting` and the location it navigates to. */
  datatype PageState = PageState(error: string, isSubmitting: bool, location: Option<string>)

  /** Submitting the form: the error is cleared, then set by a failed
      check; only a passing pair starts submitting. */
  function HandlePasswordUpdate(s: PageState, password: string, confirmPassword: string): (r: PageState)
    ensures r.location == s.location
    ensures r.error == "" <==> CheckPasswords(password, confirmPassword).Request?
    ensures CheckPasswords(password, confirmPassword).Refused? ==>
      r.error == CheckPasswords(password, confirmPassword).message && r.isSubmitting == s.isSubmitting
    ensures CheckPasswords(password, confirmPassword).Request? ==> r.isSubmitting
    ensures !s.isSubmitting ==> (r.isSubmitting <==> CheckPasswords(password, confirmPassword).Request?)
  {
    var cleared := s.(error := "");
    match CheckPasswords(password, confirmPassword)
    case Refused(message) => cleared.(error := message)
    case Request(_) => cleared.(isSubmitting := true)
  }

  /** The answer of `updateUser`: an error message, or success, which
      sends the browser to '/auth' and leaves the button disabled. */
  function OnUpdateResponse(s: PageState, error: Option<string>): (r: PageState)
    ensures error.Some? ==> r == PageState(error.value, false, s.location)
    ensures error.None? ==> r == s.(location := Some("/auth"))
  {
    match error
    case Some(message) => s.(error := message, isSubmitting := false)
    case None => s.(location := Some("/auth"))
  }
}
