/**
 * The registration form's submit button: which local error it shows, or
 * that it hands the data to the registration service. Both screen
 * orientations use the same handler. The service is outside the model; its
 * error callback is an input.
 */
module RegisterForm {

  datatype Form = Form(
    email: string,
    password: string,
    confirmPassword: string,
    name: string,
    hasError: bool,
    errorMessage: string)

  const EmptyForm: Form := Form("", "", "", "", false, "")

  const MissingFieldsText: string := "Wypełnij wszystkie pola"
  const MismatchText: string := "Hasła nie są identyczne"

  /** A call to the registration service. */
  datatype Registration = Registration(email: string, password: string, name: string)

  /** What a press of the submit button does. */
  datatype Submit = Submit(form: Form, request: seq<Registration>)

  /**
   * The submit handler: missing email, password or name comes first, then a
   * password mismatch; only a complete, matching form is sent on, and then
   * the form itself is left as it was.
   */
  function OnSubmit(f: Form): (r: Submit)
    ensures |r.request| <= 1
    ensures |r.request| == 1 <==> f.email != "" && f.password != "" && f.name != "" && f.password == f.confirmPassword
    ensures |r.request| == 1 ==> r.request[0] == Registration(f.email, f.password, f.name) && r.form == f
    ensures |r.request| == 0 ==> r.form.hasError
    ensures r.form.(hasError := f.hasError, errorMessage := f.errorMessage) == f
  {
    if f.email == "" || f.password == "" || f.name == "" then
      Submit(f.(hasError := true, errorMessage := MissingFieldsText), [])
    else if f.password != f.confirmPassword then
      Submit(f.(hasError := true, errorMessage := MismatchText), [])
    else
      Submit(f, [Registration(f.email, f.password, f.name)])
  }

  /** An empty field wins over a mismatch. */
  lemma MissingFieldTakesPrecedence(f: Form)
    requires f.email == "" || f.password == "" || f.name == ""
    ensures OnSubmit(f).form.errorMessage == MissingFieldsText
    ensures OnSubmit(f).request == []
  {
  }

  /** With every field present, differing passwords give the mismatch error and no call. */
  lemma MismatchRejected(f: Form)
    requires f.email != "" && f.password != "" && f.name != ""
    requires f.password != f.confirmPassword
    ensures OnSubmit(f).form.errorMessage == MismatchText
    ensures OnSubmit(f).request == []
  {
  }

  /** The confirmation is never checked for emptiness: left empty, it is reported as a mismatch. */
  lemma EmptyConfirmationIsMismatch(f: Form)
    requires f.email != "" && f.password != "" && f.name != "" && f.confirmPassword == ""
    ensures OnSubmit(f).form.errorMessage == MismatchText
  {
  }

  /** The service's error callback: shows the reported text. */
  function OnRegisterError(f: Form, error: string): (r: Form)
    ensures r.hasError && r.errorMessage == error
    ensures r.(hasError := f.hasError, errorMessage := f.errorMessage) == f
  {
    f.(hasError := true, errorMessage := error)
  }
}
