/** `UserViewModel`: authentication state, the screen to show, the signed-in
    user and family, loading and error flags, the family-credential check of
    the join flow, and registration. Each launched coroutine runs as one
    step here. */
module UserViewModelModule {
  import opened Wrappers
  import opened Strings
  import opened Model
  import opened UserRepositoryModule

  datatype AuthState = Unknown | Authenticated | Unauthenticated

  /** The app's navigation destinations. */
  datatype Screen = Calendar | Family | Home | Settings | Tasks | Meals | Shopping | TimePlan | Vacation | Login | Register

  /** The progress of checking a family id and PIN before joining. */
  datatype FamilyValidationState = Idle | Loading | Success(familyId: string, familyName: string) | Error(message: string)

  const ReloadFailed := "Konnte Familiendaten nach erfolgreicher Validierung nicht laden."
  const NoUserLoggedIn := "No user is currently logged in."
  const UserDataNotFound := "User data not found in Firestore."
  const NotAssigned := "User not assigned to any family."
  const JoinDenied := "Error while joining: family id or pin invalid."
  const UnknownError := "An unknown error occurred."
  const CreateSelection := "create"

  function FamilyDataNotFound(familyId: string): string {
    "Family data not found for familyId: " + familyId
  }

  /** The `onError` calls of a failed registration, in order: when the message
      mentions PERMISSION_DENIED, first the fixed join message; then always
      the message itself, or a fixed text when it is null. */
  function RegistrationErrors(message: Option<string>): (calls: seq<string>)
    ensures |calls| == 1 || |calls| == 2
    ensures |calls| == 2 <==> message.Some? && Contains(message.value, "PERMISSION_DENIED")
    ensures |calls| == 2 ==> calls[0] == JoinDenied
    ensures calls[|calls| - 1] == message.GetOr(UnknownError)
  {
    var denied := if message.Some? && Contains(message.value, "PERMISSION_DENIED") then [JoinDenied] else [];
    denied + [message.GetOr(UnknownError)]
  }

  class UserViewModel {
    var authState: AuthState
    var currentScreen: Screen
    var userState: Option<User>
    var familyState: Option<Family>
    var isLoading: bool
    var errorState: Option<string>
    var familyValidationState: FamilyValidationState
    /** Every value `familyValidationState` has taken, oldest first. */
    ghost var validationHistory: seq<FamilyValidationState>
    const repository: UserRepository

    constructor (repository: UserRepository)
      ensures authState == Unknown && currentScreen == Login
      ensures userState == None && familyState == None && !isLoading && errorState == None
      ensures familyValidationState == Idle && validationHistory == [Idle]
      ensures this.repository == repository
    {
      authState := Unknown;
      currentScreen := Login;
      userState := None;
      familyState := None;
      isLoading := false;
      errorState := None;
      familyValidationState := Idle;
      validationHistory := [Idle];
      this.repository := repository;
    }

    /** The session fields are as they were: authentication, screen, user,
        family, loading and error. */
    twostate predicate SessionKept()
      reads this
    {
      && authState == old(authState) && currentScreen == old(currentScreen)
      && userState == old(userState) && familyState == old(familyState)
      && isLoading == old(isLoading) && errorState == old(errorState)
    }

    /** What `loadUserDataAndFamily` leaves behind, given the answers of the
        user read (`userLink`) and the family read (`familyLink`): the user is
        kept as soon as it is read, the family once it is read, and the error
        names the first step that failed. */
    twostate predicate LoadedFrom(userLink: Link, familyLink: Link)
      reads this, repository
    {
      if repository.currentUid.None? then
        errorState == Some(NoUserLoggedIn) && userState == old(userState) && familyState == old(familyState)
      else
        var read := repository.GetUserData(repository.currentUid.value, userLink);
        if read.None? then
          errorState == Some(UserDataNotFound) && userState == old(userState) && familyState == old(familyState)
        else
          var user := read.value;
          && userState == Some(user)
          && if IsBlank(user.familyId) then
               errorState == Some(NotAssigned) && familyState == old(familyState)
             else
               var family := repository.GetFamilyData(user.familyId, familyLink);
               if family.None? then
                 errorState == Some(FamilyDataNotFound(user.familyId)) && familyState == old(familyState)
               else
                 errorState == None && familyState == family
    }

    /** `validateFamilyCredentials`: Loading, then Success with the stored
        family's id and name when `joinFamily` and then `getFamilyData`
        succeed, otherwise Error with the failure's message. */
    method ValidateFamilyCredentials(familyId: string, familyPin: string, joinLink: Link, fetchLink: Link)
      modifies this
      ensures validationHistory == old(validationHistory) + [Loading, familyValidationState]
      ensures familyValidationState.Success? <==>
                repository.JoinFamily(familyId, familyPin, joinLink).Success?
                && repository.GetFamilyData(familyId, fetchLink).Some?
      ensures familyValidationState.Success? ==>
                var family := repository.GetFamilyData(familyId, fetchLink).value;
                familyValidationState == FamilyValidationState.Success(family.id, family.name)
      ensures familyValidationState.Success? && repository.Valid() ==> familyValidationState.familyId == familyId
      ensures repository.JoinFamily(familyId, familyPin, joinLink).Failure? ==>
                familyValidationState == Error(repository.JoinFamily(familyId, familyPin, joinLink).error)
      ensures (repository.JoinFamily(familyId, familyPin, joinLink).Success? &&
               repository.GetFamilyData(familyId, fetchLink).None?) ==> familyValidationState == Error(ReloadFailed)
      ensures SessionKept()
    {
      familyValidationState := Loading;
      validationHistory := validationHistory + [Loading];
      var joined := repository.JoinFamily(familyId, familyPin, joinLink);
      if joined.Failure? {
        familyValidationState := Error(joined.error);
      } else {
        var data := repository.GetFamilyData(familyId, fetchLink);
        if data.Some? {
          familyValidationState := FamilyValidationState.Success(data.value.id, data.value.name);
        } else {
          familyValidationState := Error(ReloadFailed);
        }
      }
      validationHistory := validationHistory + [familyValidationState];
    }

    /** `resetFamilyValidationState`. */
    method ResetFamilyValidationState()
      modifies this
      ensures familyValidationState == Idle && validationHistory == old(validationHistory) + [Idle]
      ensures SessionKept()
    {
      familyValidationState := Idle;
      validationHistory := validationHistory + [Idle];
    }

    /** `loadUserDataAndFamily`: clears the error, then needs a signed-in
        account, its user document, a family id on it and that family's
        document, in this order; the first missing piece sets the error. The
        user is kept as soon as it is read. Loading is off at the end on every
        path. */
    method LoadUserDataAndFamily(userLink: Link, familyLink: Link)
      modifies this
      ensures !isLoading
      ensures familyValidationState == old(familyValidationState) && validationHistory == old(validationHistory)
      ensures repository.currentUid.None? ==> authState == Unauthenticated && currentScreen == Login
      ensures repository.currentUid.Some? ==> authState == old(authState) && currentScreen == old(currentScreen)
      ensures LoadedFrom(userLink, familyLink)
    {
      isLoading := true;
      errorState := None;
      var uid := repository.currentUid;
      if uid.None? {
        authState := Unauthenticated;
        currentScreen := Login;
        errorState := Some(NoUserLoggedIn);
      } else {
        var user := repository.GetUserData(uid.value, userLink);
        if user.None? {
          errorState := Some(UserDataNotFound);
        } else {
          userState := user;
          var familyId := user.value.familyId;
          if IsBlank(familyId) {
            errorState := Some(NotAssigned);
          } else {
            var family := repository.GetFamilyData(familyId, familyLink);
            if family.None? {
              errorState := Some(FamilyDataNotFound(familyId));
            } else {
              familyState := family;
            }
          }
        }
      }
      isLoading := false;
    }

    /** `checkCurrentUser`: with a signed-in account, Authenticated, the data
        loaded and the home screen; otherwise Unauthenticated and the login
        screen. */
    method CheckCurrentUser(userLink: Link, familyLink: Link)
      modifies this
      ensures authState == (if repository.currentUid.Some? then Authenticated else Unauthenticated)
      ensures currentScreen == (if repository.currentUid.Some? then Home else Login)
      ensures repository.currentUid.Some? ==> !isLoading && LoadedFrom(userLink, familyLink)
      ensures repository.currentUid.None? ==>
                isLoading == old(isLoading) && errorState == old(errorState)
                && userState == old(userState) && familyState == old(familyState)
      ensures familyValidationState == old(familyValidationState) && validationHistory == old(validationHistory)
    {
      if repository.currentUid.Some? {
        authState := Authenticated;
        LoadUserDataAndFamily(userLink, familyLink);
        currentScreen := Home;
      } else {
        authState := Unauthenticated;
        currentScreen := Login;
      }
    }

    /** `registerUser`: the account is created (`account` is the
        authentication service's answer, and a new account is signed in);
        "create" makes a new family (document `newFamilyId`) and uses its id,
        any other selection takes `familyIdOrName` as the family id unchecked;
        the user is then written with the account's uid, that family id and
        the PIN. Returns the `onError` calls and whether `onSuccess` was
        called. */
    method RegisterUser(user: User, familySelection: string, familyIdOrName: string, familyPin: string,
                        account: Result<string, Option<string>>, newFamilyId: string, familyLink: Link, userLink: Link)
      returns (errors: seq<string>, succeeded: bool)
      requires newFamilyId !in repository.families
      modifies repository
      ensures succeeded <==> errors == []
      ensures account.Failure? ==>
                errors == RegistrationErrors(account.error) && repository.users == old(repository.users)
                && repository.families == old(repository.families) && repository.currentUid == old(repository.currentUid)
      ensures account.Success? ==> repository.currentUid == Some(account.value)
      ensures account.Success? && familySelection == CreateSelection && familyLink.Down? ==>
                errors == RegistrationErrors(Some(CreatePrefix + MessageText(familyLink.message)))
                && repository.users == old(repository.users)
      ensures account.Success? && (familySelection != CreateSelection || familyLink.Up?) ==>
                var familyId := if familySelection == CreateSelection then newFamilyId else familyIdOrName;
                var finalUser := user.(id := account.value, familyId := familyId, familyPin := Some(familyPin));
                && (IsBlank(familyId) ==> errors == RegistrationErrors(Some(AddUserRequiresFamily)))
                && (!IsBlank(familyId) && userLink.Down? ==> errors == RegistrationErrors(userLink.message))
                && (succeeded <==> !IsBlank(familyId) && userLink.Up?)
                && (succeeded ==> repository.users == old(repository.users)[account.value := Some(StoredUser(finalUser))])
      ensures !succeeded ==> repository.users == old(repository.users)
      ensures familySelection != CreateSelection ==> repository.families == old(repository.families)
      ensures account.Success? && familySelection == CreateSelection && familyLink.Down? ==>
                repository.families == old(repository.families)
      ensures account.Success? && familySelection == CreateSelection && familyLink.Up? ==>
                repository.families
                  == old(repository.families)[newFamilyId := Some(StoredFamily(Model.Family(newFamilyId, familyIdOrName, familyPin, account.value, [], [])))]
    {
      if account.Failure? {
        return RegistrationErrors(account.error), false;
      }
      var uid := account.value;
      repository.SignIn(uid);
      var familyId: string;
      if familySelection == CreateSelection {
        var created := repository.CreateFamily(familyIdOrName, familyPin, newFamilyId, familyLink);
        if created.Failure? {
          return RegistrationErrors(Some(created.error)), false;
        }
        familyId := created.value;
      } else {
        familyId := familyIdOrName;
      }
      var finalUser := user.(id := uid, familyId := familyId, familyPin := Some(familyPin));
      var outcome := repository.AddUser(finalUser, userLink);
      if outcome.Thrown? {
        return RegistrationErrors(outcome.message), false;
      }
      return [], true;
    }
  }
}
