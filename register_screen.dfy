/** The "Create Account" button of the registration screen: three ordered
    checks on the form, each with its own message, then the call into the
    view model; and the red flag on the repeat-password field. */
module RegisterScreenModule {
  import opened Wrappers
  import opened Strings
  import opened Model
  import opened UserViewModelModule

  const MissingFields := "Please fill out all mandatory fields (*)."
  const PasswordTooShort := "Password must be at least 8 characters long."
  const PasswordsDiffer := "Passwords do not match."
  const MinPasswordLength := 8

  /** The text fields of the screen. */
  datatype RegisterForm = RegisterForm(
    firstName: string,
    lastName: string,
    gender: string,
    alias: string,
    role: string,
    birthday: string,
    email: string,
    password: string,
    repeatPassword: string)

  /** The arguments the screen passes to `registerUser`. */
  datatype RegisterCall = RegisterCall(
    user: User,
    password: string,
    familySelection: string,
    familyIdOrName: string,
    familyPin: string)

  predicate MandatoryMissing(form: RegisterForm) {
    IsBlank(form.firstName) || IsBlank(form.lastName) || IsBlank(form.email) || IsBlank(form.password)
  }

  /** The button's checks: the first failing one gives its message;
      otherwise the user to register, with an empty id and family id, and the
      navigation arguments with absent ones passed as "". */
  function CreateAccount(form: RegisterForm, familySelection: Option<string>,
                         familyIdOrName: Option<string>, familyPin: Option<string>): (r: Result<RegisterCall, string>)
    ensures r == Failure(MissingFields) <==> MandatoryMissing(form)
    ensures r == Failure(PasswordTooShort) <==> !MandatoryMissing(form) && |form.password| < MinPasswordLength
    ensures r == Failure(PasswordsDiffer) <==>
              !MandatoryMissing(form) && |form.password| >= MinPasswordLength && form.password != form.repeatPassword
    ensures r.Success? <==>
              !MandatoryMissing(form) && |form.password| >= MinPasswordLength && form.password == form.repeatPassword
    ensures r.Success? ==>
              var u := r.value.user;
              && u.id == "" && u.familyId == "" && u.familyPin == None
              && u.firstName == form.firstName && u.lastName == form.lastName && u.email == form.email
              && u.gender == form.gender && u.alias == form.alias && u.role == form.role
              && u.birthday == form.birthday
    ensures r.Success? ==>
              && r.value.password == form.password
              && r.value.familySelection == familySelection.GetOr("")
              && r.value.familyIdOrName == familyIdOrName.GetOr("")
              && r.value.familyPin == familyPin.GetOr("")
  {
    if MandatoryMissing(form) then Failure(MissingFields)
    else if |form.password| < MinPasswordLength then Failure(PasswordTooShort)
    else if form.password != form.repeatPassword then Failure(PasswordsDiffer)
    else
      var user := User("", "", form.firstName, form.lastName, form.email, form.gender,
                       form.alias, form.role, form.birthday, None);
      Result.Success(RegisterCall(user, form.password, familySelection.GetOr(""),
                           familyIdOrName.GetOr(""), familyPin.GetOr("")))
  }

  /** `isError` of the repeat-password field. */
  predicate RepeatPasswordFlagged(form: RegisterForm) {
    |form.repeatPassword| > 0 && form.password != form.repeatPassword
  }

  /** The flag and the button agree: a form the button accepts is never
      flagged, a flagged form that passes the first two checks is refused
      for the mismatch, and the only mismatch left unflagged is an empty
      repeat field. */
  lemma FlagAgreesWithButton(form: RegisterForm, familySelection: Option<string>,
                             familyIdOrName: Option<string>, familyPin: Option<string>)
    ensures CreateAccount(form, familySelection, familyIdOrName, familyPin).Success? ==> !RepeatPasswordFlagged(form)
    ensures RepeatPasswordFlagged(form) && !MandatoryMissing(form) && |form.password| >= MinPasswordLength ==>
              CreateAccount(form, familySelection, familyIdOrName, familyPin) == Failure(PasswordsDiffer)
    ensures form.password != form.repeatPassword ==> (RepeatPasswordFlagged(form) <==> form.repeatPassword != "")
  {
  }

  /** The `error` state after a sequence of assignments to it, starting
      from `start`: the last value assigned, if any. */
  function LastAssigned(start: Option<string>, assignments: seq<string>): (error: Option<string>)
    ensures assignments == [] ==> error == start
    ensures assignments != [] ==> error == Some(assignments[|assignments| - 1])
    decreases |assignments|
  {
    if assignments == [] then start else LastAssigned(Some(assignments[0]), assignments[1..])
  }

  /** The error shown after one click: reset to none, then either the
      failed check's message, or one assignment per `onError` call made by
      the view model. */
  function ErrorAfterClick(checked: Result<RegisterCall, string>, onErrorCalls: seq<string>): (error: Option<string>)
    ensures checked.Failure? ==> error == Some(checked.error)
    ensures checked.Success? && onErrorCalls == [] ==> error == None
    ensures checked.Success? && onErrorCalls != [] ==> error == Some(onErrorCalls[|onErrorCalls| - 1])
  {
    match checked
    case Failure(message) => LastAssigned(None, [message])
    case Success(_) => LastAssigned(None, onErrorCalls)
  }

  /** After a failed registration the screen shows the raw failure message
      (or the generic one when there is none); the friendly message for a
      denied join is delivered first and then overwritten. */
  lemma ShownRegistrationError(checked: Result<RegisterCall, string>, message: Option<string>)
    requires checked.Success?
    ensures ErrorAfterClick(checked, RegistrationErrors(message)) == Some(message.GetOr(UnknownError))
    ensures message.Some? && Contains(message.value, "PERMISSION_DENIED") ==>
              RegistrationErrors(message)[0] == JoinDenied
              && ErrorAfterClick(checked, RegistrationErrors(message)) == Some(message.value)
  {
  }
}
