/**
 * The forgot-password page: the email field, the loading flag around the reset
 * request, and the switch to the "check your email" view once the request succeeds.
 * The answer of the reset request is an input.
 */
module ForgotPassword {

  /** What `resetPassword(email)` yields: no error, an error, or a thrown exception. */
  datatype ResetResult = ResetOk | ResetError(message: string) | ResetThrew

  /** How a submission ends. */
  datatype Submission = EmailRequired | Requested(email: string)

  /** The page's state cells. */
  class ForgotPasswordPage {
    var email: string
    var isLoading: bool
    var emailSent: bool
    /** The value of `isLoading` while the reset request was awaited. */
    ghost var loadingDuringCall: bool

    constructor ()
      ensures email == "" && !isLoading && !emailSent
    {
      email, isLoading, emailSent := "", false, false;
      loadingDuringCall := false;
    }

    method SetEmail(value: string)
      modifies this
      ensures email == value && isLoading == old(isLoading) && emailSent == old(emailSent)
    {
      email := value;
    }

    /**
     * `handleSubmit`: an empty email is refused before any request. Otherwise the flag
     * is on during the request and off afterwards; only a request without an error
     * switches to the sent view.
     */
    method HandleSubmit(result: ResetResult) returns (s: Submission)
      modifies this
      ensures s == (if old(email) == "" then EmailRequired else Requested(old(email)))
      ensures s.EmailRequired? ==> isLoading == old(isLoading) && emailSent == old(emailSent)
      ensures s.Requested? ==> !isLoading && loadingDuringCall
      ensures s.Requested? ==> emailSent == (old(emailSent) || result.ResetOk?)
      ensures email == old(email)
    {
      if email == "" {
        return EmailRequired;
      }
      isLoading := true;
      loadingDuringCall := isLoading;
      s := Requested(email);
      if result.ResetOk? {
        emailSent := true;
      }
      isLoading := false;
    }

    /** "Try Different Email": back to an empty form. */
    method TryDifferentEmail()
      modifies this
      ensures !emailSent && email == "" && isLoading == old(isLoading)
    {
      emailSent := false;
      email := "";
    }
  }
}
