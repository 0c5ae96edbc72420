/**
 * The first-admin setup form: three fields, a loading flag around the creation
 * request, and a submit button enabled only when it can send. The answer of
 * `createInitialAdmin` is an input, including the case where it returns nothing.
 */
module InitialSetup {

  /** What `createInitialAdmin` returns: success, a failure, or nothing at all (sign-up gave no user and no error). */
  datatype SetupResult = Created | Failed(message: string) | NoResult

  datatype SetupForm = SetupForm(email: string, password: string, fullName: string)

  const EmptyForm: SetupForm := SetupForm("", "", "")

  /** Every field is filled in. */
  predicate Filled(f: SetupForm)
  {
    f.email != "" && f.password != "" && f.fullName != ""
  }

  /** How a submission ends: refused, answered, or the TypeError of reading `success` of undefined. */
  datatype Submission = Incomplete | Answered(result: SetupResult) | ThrewOnMissingResult

  /** The component's state cells. */
  class InitialSetupPage {
    var form: SetupForm
    var loading: bool
    /** The value of `loading` while the request was awaited. */
    ghost var loadingDuringCall: bool

    constructor ()
      ensures form == EmptyForm && !loading
    {
      form := EmptyForm;
      loading := false;
      loadingDuringCall := false;
    }

    /** The `disabled` condition of the submit button, negated. */
    function SubmitEnabled(): (enabled: bool)
      reads this
      ensures enabled <==> !loading && Filled(form)
    {
      !(loading || form.email == "" || form.password == "" || form.fullName == "")
    }

    /**
     * `handleSubmit`: a missing field is refused before any request. Otherwise the
     * flag is on during the request and off after it, whatever it returns; success
     * clears the form and any other answer keeps it. A missing result makes the
     * handler throw after the flag is off.
     */
    method HandleSubmit(result: SetupResult) returns (s: Submission)
      modifies this
      ensures !Filled(old(form)) ==> s == Incomplete && form == old(form) && loading == old(loading)
      ensures Filled(old(form)) ==> !loading && loadingDuringCall
      ensures Filled(old(form)) && result.NoResult? ==> s == ThrewOnMissingResult
      ensures Filled(old(form)) && !result.NoResult? ==> s == Answered(result)
      ensures form == if Filled(old(form)) && result.Created? then EmptyForm else old(form)
    {
      if form.email == "" || form.password == "" || form.fullName == "" {
        return Incomplete;
      }
      loading := true;
      loadingDuringCall := loading;
      loading := false;
      match result {
        case NoResult =>
          return ThrewOnMissingResult;
        case Created =>
          form := EmptyForm;
        case Failed(_) =>
      }
      s := Answered(result);
    }

    method SetField(field: string, value: string)
      requires field in {"email", "password", "fullName"}
      modifies this
      ensures form == (match field
        case "email" => old(form).(email := value)
        case "password" => old(form).(password := value)
        case _ => old(form).(fullName := value))
      ensures loading == old(loading)
    {
      match field
      case "email" => form := form.(email := value);
      case "password" => form := form.(password := value);
      case _ => form := form.(fullName := value);
    }
  }
}
