/** The family step of sign-up: choose to create a family (name and a PIN
    typed twice) or to join one (id and PIN). "Next" checks the fields in a
    fixed order and then either navigates on, asks the view model to check
    the credentials, or shows an error; a successful check navigates to
    registration. */
module ChooseFamilyScreenModule {
  import opened Wrappers
  import opened Strings
  import opened UserViewModelModule

  const JoinSelection := "join"
  const PinTooShort := "The PIN must be at least 4 digits long."
  const PinsDiffer := "The PINs do not match. Please check your input."
  const CreateFieldsMissing := "Please fill out all fields for the new family."
  const JoinFieldsMissing := "Please provide the Family ID and PIN to join."
  const NoSelection := "Please make a selection first."
  const MinPinLength := 4

  /** The screen's inputs; the join form shares the PIN field with the
      create form. The selection starts as "create". */
  datatype FamilyForm = FamilyForm(
    selection: Option<string>,
    familyName: string,
    familyPin: string,
    repeatFamilyPin: string,
    familyId: string)

  /** What a click on "Next" does after clearing the error. */
  datatype NextAction =
    | NavigateToRegister(familySelection: string, familyIdOrName: string, familyPin: Option<string>, lastName: string)
    | ValidateCredentials(familyId: string, pin: string)
    | ShowError(message: string)

  predicate CreateFieldsFilled(form: FamilyForm) {
    !IsBlank(form.familyName) && !IsBlank(form.familyPin) && !IsBlank(form.repeatFamilyPin)
  }

  /** The "Next" decision. */
  function OnNext(form: FamilyForm): (action: NextAction)
    ensures action.NavigateToRegister? <==>
              form.selection == Some(CreateSelection) && CreateFieldsFilled(form)
              && |form.familyPin| >= MinPinLength && form.familyPin == form.repeatFamilyPin
    ensures action.NavigateToRegister? ==>
              action == NavigateToRegister(CreateSelection, form.familyName, Some(form.familyPin), form.familyName)
    ensures action.ValidateCredentials? <==>
              form.selection == Some(JoinSelection) && !IsBlank(form.familyId) && !IsBlank(form.familyPin)
    ensures action.ValidateCredentials? ==> action == ValidateCredentials(form.familyId, form.familyPin)
    ensures action == ShowError(CreateFieldsMissing) <==>
              form.selection == Some(CreateSelection) && !CreateFieldsFilled(form)
    ensures action == ShowError(PinTooShort) <==>
              form.selection == Some(CreateSelection) && CreateFieldsFilled(form) && |form.familyPin| < MinPinLength
    ensures action == ShowError(PinsDiffer) <==>
              form.selection == Some(CreateSelection) && CreateFieldsFilled(form)
              && |form.familyPin| >= MinPinLength && form.familyPin != form.repeatFamilyPin
    ensures action == ShowError(JoinFieldsMissing) <==>
              form.selection == Some(JoinSelection) && (IsBlank(form.familyId) || IsBlank(form.familyPin))
    ensures action == ShowError(NoSelection) <==>
              form.selection != Some(CreateSelection) && form.selection != Some(JoinSelection)
  {
    if form.selection == Some(CreateSelection) then
      if CreateFieldsFilled(form) then
        if |form.familyPin| < MinPinLength then ShowError(PinTooShort)
        else if form.familyPin != form.repeatFamilyPin then ShowError(PinsDiffer)
        else NavigateToRegister(CreateSelection, form.familyName, Some(form.familyPin), form.familyName)
      else ShowError(CreateFieldsMissing)
    else if form.selection == Some(JoinSelection) then
      if !IsBlank(form.familyId) && !IsBlank(form.familyPin) then ValidateCredentials(form.familyId, form.familyPin)
      else ShowError(JoinFieldsMissing)
    else ShowError(NoSelection)
  }

  /** A PIN typed wrongly is reported for its length before the mismatch:
      a short PIN is never reported as mismatched. */
  lemma PinLengthBeforeMismatch(form: FamilyForm)
    requires form.selection == Some(CreateSelection) && CreateFieldsFilled(form)
    requires |form.familyPin| < MinPinLength
    ensures OnNext(form) == ShowError(PinTooShort)
    ensures OnNext(form) != ShowError(PinsDiffer)
  {
  }

  /** The error text under the form: the client-side error if there is one,
      else the message of a failed credential check. */
  function ErrorShown(clientSideError: Option<string>, state: FamilyValidationState): (shown: Option<string>)
    ensures clientSideError.Some? ==> shown == clientSideError
    ensures clientSideError.None? ==> (shown.Some? <==> state.Error?)
    ensures clientSideError.None? && state.Error? ==> shown == Some(state.message)
  {
    if clientSideError.Some? then clientSideError
    else if state.Error? then Some(state.message)
    else None
  }

  /** "Next" is enabled iff something is selected and no check is running. */
  predicate NextEnabled(selection: Option<string>, state: FamilyValidationState) {
    selection.Some? && !state.Loading?
  }

  /** A click on "Next": the client-side error is cleared and the
      validation state reset to Idle first; then the decision is carried
      out, the credential check through the view model. */
  method ClickNext(viewModel: UserViewModel, form: FamilyForm, joinLink: Link, fetchLink: Link)
    returns (action: NextAction, clientSideError: Option<string>)
    modifies viewModel
    ensures action == OnNext(form)
    ensures clientSideError == (if action.ShowError? then Some(action.message) else None)
    ensures !action.ValidateCredentials? ==>
              viewModel.familyValidationState == Idle
              && viewModel.validationHistory == old(viewModel.validationHistory) + [Idle]
    ensures action.ValidateCredentials? ==>
              viewModel.validationHistory
                == old(viewModel.validationHistory) + [Idle, Loading, viewModel.familyValidationState]
              && (viewModel.familyValidationState.Success? <==>
                    viewModel.repository.JoinFamily(form.familyId, form.familyPin, joinLink).Success?
                    && viewModel.repository.GetFamilyData(form.familyId, fetchLink).Some?)
              && (viewModel.familyValidationState.Success? ==>
                    var family := viewModel.repository.GetFamilyData(form.familyId, fetchLink).value;
                    viewModel.familyValidationState == FamilyValidationState.Success(family.id, family.name))
              && (viewModel.repository.JoinFamily(form.familyId, form.familyPin, joinLink).Failure? ==>
                    viewModel.familyValidationState
                      == Error(viewModel.repository.JoinFamily(form.familyId, form.familyPin, joinLink).error))
              && (viewModel.repository.JoinFamily(form.familyId, form.familyPin, joinLink).Success?
                  && viewModel.repository.GetFamilyData(form.familyId, fetchLink).None? ==>
                    viewModel.familyValidationState == Error(ReloadFailed))
    ensures viewModel.SessionKept()
    ensures form.selection.Some? ==> NextEnabled(form.selection, viewModel.familyValidationState)
    ensures ErrorShown(clientSideError, viewModel.familyValidationState).Some? ==>
              action.ShowError? || viewModel.familyValidationState.Error?
  {
    clientSideError := None;
    viewModel.ResetFamilyValidationState();
    action := OnNext(form);
    match action
    case ShowError(message) =>
      clientSideError := Some(message);
    case ValidateCredentials(familyId, pin) =>
      viewModel.ValidateFamilyCredentials(familyId, pin, joinLink, fetchLink);
    case NavigateToRegister(_, _, _, _) =>
  }

  /** The effect on a change of the validation state: on Success, navigate
      to registration as a join with the checked family's id and name, then
      reset the state to Idle; any other state does nothing. */
  method OnValidationState(viewModel: UserViewModel) returns (navigation: Option<NextAction>)
    modifies viewModel
    ensures old(viewModel.familyValidationState).Success? ==>
              navigation == Some(NavigateToRegister(JoinSelection, old(viewModel.familyValidationState).familyId,
                                                    None, old(viewModel.familyValidationState).familyName))
              && viewModel.familyValidationState == Idle
              && viewModel.validationHistory == old(viewModel.validationHistory) + [Idle]
    ensures !old(viewModel.familyValidationState).Success? ==>
              navigation == None
              && viewModel.familyValidationState == old(viewModel.familyValidationState)
              && viewModel.validationHistory == old(viewModel.validationHistory)
    ensures viewModel.SessionKept()
  {
    var state := viewModel.familyValidationState;
    if state.Success? {
      navigation := Some(NavigateToRegister(JoinSelection, state.familyId, None, state.familyName));
      viewModel.ResetFamilyValidationState();
    } else {
      navigation := None;
    }
  }
}
