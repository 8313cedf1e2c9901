/** `UserRepository`: user documents in `users/{uid}`, family documents in
    `families/{familyId}`, and the account signed in to the authentication
    service. */
module UserRepositoryModule {
  import opened Wrappers
  import opened Strings
  import opened Model

  const AddUserRequiresFamily := "addUser requires a non-blank familyId in the User object"
  const UpdateRequiresId := "User ID cannot be null for update."
  const DeleteRequiresId := "User ID cannot be null for delete"
  const NotAuthenticated := "User not authenticated, cannot create family."
  const JoinPrefix := "Could not join family: "
  const CreatePrefix := "Could not create family: "
  const IncorrectPin := "Incorrect Family PIN."
  const ParseFailure := "Failed to parse family data."

  function FamilyNotFound(familyId: string): string {
    "Family with ID '" + familyId + "' not found."
  }

  class UserRepository {
    /** The `users` collection; `None` is a document that does not decode as
        a `User`. */
    var users: map<string, Option<User>>
    /** The `families` collection; `None` is a document that does not decode
        as a `Family`. */
    var families: map<string, Option<Family>>
    /** `auth.currentUser?.uid` (`getCurrentUser`). */
    var currentUid: Option<string>

    constructor (signedIn: Option<string>)
      ensures users == map[] && families == map[] && currentUid == signedIn
    {
      users := map[];
      families := map[];
      currentUid := signedIn;
    }

    /** Every family document the app wrote carries its own id. */
    predicate Valid()
      reads this
    {
      forall id :: id in families && families[id].Some? ==> families[id].value.id == id
    }

    /** `joinFamily`: the family id back when the document exists, decodes
        and holds exactly that PIN; otherwise the wrapped error. */
    function JoinFamily(familyId: string, familyPin: string, link: Link): (r: Result<string, string>)
      reads this
      ensures r.Success? <==> link.Up? && familyId in families && families[familyId].Some?
                              && families[familyId].value.pin == familyPin
      ensures r.Success? ==> r.value == familyId
      ensures link.Up? && familyId !in families ==> r == Failure(JoinPrefix + FamilyNotFound(familyId))
      ensures (link.Up? && familyId in families && families[familyId].Some? &&
               families[familyId].value.pin != familyPin) ==> r == Failure(JoinPrefix + IncorrectPin)
      ensures r.Failure? ==> |JoinPrefix| <= |r.error| && r.error[..|JoinPrefix|] == JoinPrefix
    {
      match link
      case Down(m) => Failure(JoinPrefix + MessageText(m))
      case Up =>
        if familyId !in families then Failure(JoinPrefix + FamilyNotFound(familyId))
        else match families[familyId]
          case None => Failure(JoinPrefix + ParseFailure)
          case Some(family) =>
            if family.pin != familyPin then Failure(JoinPrefix + IncorrectPin) else Success(familyId)
    }

    /** `getUserData`: the decoded user document, or null when it is absent,
        does not decode or cannot be read. */
    function GetUserData(userId: string, link: Link): (r: Option<User>)
      reads this
      ensures r.Some? <==> link.Up? && userId in users && users[userId].Some?
      ensures r.Some? ==> users[userId] == r
    {
      if link.Up? && userId in users then users[userId] else None
    }

    /** `getFamilyData`: the decoded family document, or null when it is
        absent, does not decode or cannot be read. */
    function GetFamilyData(familyId: string, link: Link): (r: Option<Family>)
      reads this
      ensures r.Some? <==> link.Up? && familyId in families && families[familyId].Some?
      ensures r.Some? ==> families[familyId] == r
      ensures r.Some? && Valid() ==> r.value.id == familyId
    {
      if link.Up? && familyId in families then families[familyId] else None
    }

    /** `createFamily`: without a signed-in account it throws before anything
        else; otherwise a new document `newId` (drawn fresh by Firestore)
        receives the family, owned by the signed-in account, and its id is
        returned. Joining it with the same PIN then succeeds. */
    method CreateFamily(familyName: string, familyPin: string, newId: string, link: Link) returns (r: Result<string, string>)
      requires newId !in families
      modifies this
      ensures currentUid.None? ==> r == Failure(NotAuthenticated)
      ensures currentUid.Some? && link.Down? ==> r == Failure(CreatePrefix + MessageText(link.message))
      ensures r.Success? <==> currentUid.Some? && link.Up?
      ensures r.Success? ==> r.value == newId
                             && families == old(families)[newId := Some(StoredFamily(Family(newId, familyName, familyPin, currentUid.value, [], [])))]
                             && JoinFamily(newId, familyPin, Up) == Success(newId)
      ensures r.Failure? ==> families == old(families)
      ensures users == old(users) && currentUid == old(currentUid)
      ensures old(Valid()) ==> Valid()
    {
      if currentUid.None? {
        return Failure(NotAuthenticated);
      }
      if link.Down? {
        return Failure(CreatePrefix + MessageText(link.message));
      }
      var family := Family(newId, familyName, familyPin, currentUid.value, [], []);
      families := families[newId := Some(StoredFamily(family))];
      r := Success(newId);
    }

    /** `addUser`: a blank familyId throws before any write; otherwise the user
        (without its PIN, which is not persisted) is written at `users/{id}`,
        whatever the id. */
    method AddUser(user: User, link: Link) returns (outcome: Outcome)
      modifies this
      ensures IsBlank(user.familyId) ==> outcome == Thrown(Some(AddUserRequiresFamily))
      ensures !IsBlank(user.familyId) && link.Down? ==> outcome == Thrown(link.message)
      ensures outcome == Done <==> !IsBlank(user.familyId) && link.Up?
      ensures outcome == Done ==> users == old(users)[user.id := Some(StoredUser(user))]
      ensures outcome != Done ==> users == old(users)
      ensures families == old(families) && currentUid == old(currentUid)
    {
      if IsBlank(user.familyId) {
        return Thrown(Some(AddUserRequiresFamily));
      }
      if link.Down? {
        return Thrown(link.message);
      }
      users := users[user.id := Some(StoredUser(user))];
      outcome := Done;
    }

    /** `updateUser`: a blank id throws; otherwise the document at the id is
        replaced (or created). */
    method UpdateUser(user: User, link: Link) returns (outcome: Outcome)
      modifies this
      ensures IsBlank(user.id) ==> outcome == Thrown(Some(UpdateRequiresId))
      ensures !IsBlank(user.id) && link.Down? ==> outcome == Thrown(link.message)
      ensures outcome == Done <==> !IsBlank(user.id) && link.Up?
      ensures outcome == Done ==> users == old(users)[user.id := Some(StoredUser(user))]
      ensures outcome != Done ==> users == old(users)
      ensures families == old(families) && currentUid == old(currentUid)
    {
      if IsBlank(user.id) {
        return Thrown(Some(UpdateRequiresId));
      }
      if link.Down? {
        return Thrown(link.message);
      }
      users := users[user.id := Some(StoredUser(user))];
      outcome := Done;
    }

    /** `deleteUser`: a blank id throws; otherwise the document at the id is
        removed. */
    method DeleteUser(user: User, link: Link) returns (outcome: Outcome)
      modifies this
      ensures IsBlank(user.id) ==> outcome == Thrown(Some(DeleteRequiresId))
      ensures !IsBlank(user.id) && link.Down? ==> outcome == Thrown(link.message)
      ensures outcome == Done <==> !IsBlank(user.id) && link.Up?
      ensures outcome == Done ==> users == old(users) - {user.id}
      ensures outcome != Done ==> users == old(users)
      ensures families == old(families) && currentUid == old(currentUid)
    {
      if IsBlank(user.id) {
        return Thrown(Some(DeleteRequiresId));
      }
      if link.Down? {
        return Thrown(link.message);
      }
      users := users - {user.id};
      outcome := Done;
    }

    /** Firebase signs a newly created account in; `createUserWithEmailAndPassword`
        is otherwise outside this model. */
    method SignIn(uid: string)
      modifies this
      ensures currentUid == Some(uid) && users == old(users) && families == old(families)
    {
      currentUid := Some(uid);
    }
  }
}
