/** The contact page: who may see it, and the submit state machine. */
module ContactPage {
  import opened Wrappers

  datatype ContactForm = ContactForm(name: string, email: string, message: string)

  const EmptyForm := ContactForm("", "", "")
  const FailedAlert := "Failed to send message. Please try again."
  const ErrorAlert := "An error occurred. Please try again."

  /** The effect's test: once auth has loaded, visitors and admins are
      sent home. */
  function ShouldRedirect(loading: bool, hasUser: bool, isAdmin: bool): (r: bool)
    ensures r <==> !loading && (!hasUser || isAdmin)
  {
    !loading && (!hasUser || isAdmin)
  }

  /** The page itself shows only to a loaded, logged-in non-admin. */
  function ShowsForm(loading: bool, hasUser: bool, isAdmin: bool): (r: bool)
    ensures r <==> !loading && hasUser && !isAdmin
  {
    !(loading || !hasUser || isAdmin)
  }

  /** Once auth has loaded the page either shows or redirects, never both. */
  lemma ShowsOrRedirects(hasUser: bool, isAdmin: bool)
    ensures ShowsForm(false, hasUser, isAdmin) != ShouldRedirect(false, hasUser, isAdmin)
  {
  }

  class Page {
    var formData: ContactForm
    var isSubmitting: bool
    var submitted: bool

    constructor()
      ensures formData == EmptyForm && !isSubmitting && !submitted
    {
      formData := EmptyForm;
      isSubmitting := false;
      submitted := false;
    }

    /** `handleSubmit`. `response` is `data.success`, or the failure of
        the request; the form posted is returned with the alert shown. */
    method HandleSubmit(response: Result<bool, string>) returns (posted: ContactForm, alert: Option<string>)
      modifies this
      ensures posted == old(formData)
      ensures response == Success(true) ==> submitted && formData == EmptyForm && alert.None?
      ensures response == Success(false) ==>
        formData == old(formData) && submitted == old(submitted) && alert == Some(FailedAlert)
      ensures response.Failure? ==>
        formData == old(formData) && submitted == old(submitted) && alert == Some(ErrorAlert)
      ensures !isSubmitting
    {
      isSubmitting := true;
      posted := formData;
      alert := None;
      match response {
        case Success(success) =>
          if success {
            submitted := true;
            formData := EmptyForm;
          } else {
            alert := Some(FailedAlert);
          }
        case Failure(_) =>
          alert := Some(ErrorAlert);
      }
      isSubmitting := false;
    }

    /** 'Send Another Message'. */
    method SendAnother()
      modifies this
      ensures !submitted
      ensures formData == old(formData) && isSubmitting == old(isSubmitting)
    {
      submitted := false;
    }
  }
}
