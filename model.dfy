/** The app's three record shapes. Every field has the Kotlin default ("",
    0L, false, empty list); `startDate`/`endDate` are epoch milliseconds. */
module Model {
  import opened Wrappers

  datatype Event = Event(
    id: string,
    title: string,
    startDate: int,
    endDate: int,
    allDay: bool,
    location: string,
    notification: string,
    repeat: string,
    notes: string,
    createdBy: string,
    familyId: string,
    participants: seq<string>)

  /** `Event()` with every field defaulted. */
  const EmptyEvent := Event("", "", 0, 0, false, "", "", "", "", "", "", [])

  /** A user document. `familyPin` is excluded from persistence. */
  datatype User = User(
    id: string,
    familyId: string,
    firstName: string,
    lastName: string,
    email: string,
    gender: string,
    alias: string,
    role: string,
    birthday: string,
    familyPin: Option<string>)

  /** A family document. `users` and `events` are excluded from persistence. */
  datatype Family = Family(
    id: string,
    name: string,
    pin: string,
    ownerId: string,
    users: seq<User>,
    events: seq<Event>)

  /** What the document store keeps of a user: every persisted field. */
  function StoredUser(u: User): (r: User)
    ensures r.familyPin == None
    ensures r.(familyPin := u.familyPin) == u
  {
    u.(familyPin := None)
  }

  /** What the document store keeps of a family: every persisted field. */
  function StoredFamily(f: Family): (r: Family)
    ensures r.users == [] && r.events == []
    ensures r.(users := f.users, events := f.events) == f
  {
    f.(users := [], events := [])
  }

  /** xs is ys with some elements left out, the rest kept in order. */
  predicate IsSubsequence<T(==)>(xs: seq<T>, ys: seq<T>)
    decreases |ys|
  {
    if xs == [] then true
    else if ys == [] then false
    else if xs[0] == ys[0] then IsSubsequence(xs[1..], ys[1..])
    else IsSubsequence(xs, ys[1..])
  }
}
