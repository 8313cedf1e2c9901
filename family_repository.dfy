/** `FamilyRepository`: a write-through cache of families, a local table
    (Room, keyed by the numeric `familyId`) in front of the remote `families`
    collection. */
module FamilyRepositoryModule {
  import opened Wrappers
  import opened Strings

  /** `FamilyEntity`; `familyId` is the table's auto-generated primary key and
      `remoteId` the Firestore id, which no operation here reads. */
  datatype FamilyEntity = FamilyEntity(familyId: int, remoteId: Option<string>, name: string, createdAt: int)

  /** The text key under which a row is found: the queries compare the
      primary key with a string argument, modelled as its decimal text. */
  function Key(e: FamilyEntity): string {
    IntToString(e.familyId)
  }

  class FamilyRepository {
    /** The local table, by the decimal text of each row's primary key. */
    var local: map<string, FamilyEntity>
    /** The remote `families` collection seen as `FamilyEntity` documents, by
        document id; kept apart from the user repository's view of it. */
    var remote: map<string, FamilyEntity>

    constructor ()
      ensures local == map[] && remote == map[]
    {
      local := map[];
      remote := map[];
    }

    /** Every row sits under its own key. */
    predicate Valid()
      reads this
    {
      forall k :: k in local ==> k == Key(local[k])
    }

    /** `insertFamily` with REPLACE on conflict: a row with the same key is
        replaced. A primary key of 0 counts as unset, and the table assigns a
        new key instead (`generatedId`, not in use). */
    method InsertLocal(family: FamilyEntity, generatedId: int) returns (row: FamilyEntity)
      requires family.familyId == 0 ==> generatedId != 0 && IntToString(generatedId) !in local
      modifies this
      ensures row == if family.familyId == 0 then family.(familyId := generatedId) else family
      ensures local == old(local)[Key(row) := row] && remote == old(remote)
      ensures old(Valid()) ==> Valid()
    {
      row := if family.familyId == 0 then family.(familyId := generatedId) else family;
      local := local[Key(row) := row];
    }

    /** `getFamily`: first emits the cached row, then fetches the remote
        document; when it exists, it replaces the cached row and is emitted
        too. A failing fetch ends the flow with that error after the first
        emission. */
    method GetFamily(familyId: string, link: Link, generatedId: int) returns (emissions: seq<Option<FamilyEntity>>, outcome: Outcome)
      requires familyId in remote && remote[familyId].familyId == 0 ==>
                 generatedId != 0 && IntToString(generatedId) !in local
      modifies this
      ensures 1 <= |emissions| <= 2
      ensures emissions[0] == (if familyId in old(local) then Some(old(local)[familyId]) else None)
      ensures |emissions| == 2 <==> link.Up? && familyId in remote
      ensures |emissions| == 2 ==> emissions[1] == Some(remote[familyId])
      ensures |emissions| == 2 ==>
                var fetched := remote[familyId];
                var row := if fetched.familyId == 0 then fetched.(familyId := generatedId) else fetched;
                local == old(local)[Key(row) := row]
      ensures |emissions| == 1 ==> local == old(local)
      ensures outcome == (if link.Down? then Thrown(link.message) else Done)
      ensures remote == old(remote)
      ensures old(Valid()) ==> Valid()
    {
      emissions := [if familyId in local then Some(local[familyId]) else None];
      if link.Down? {
        return emissions, Thrown(link.message);
      }
      outcome := Done;
      if familyId in remote {
        var remoteFamily := remote[familyId];
        var row := InsertLocal(remoteFamily, generatedId);
        emissions := emissions + [Some(remoteFamily)];
      }
    }

    /** `addOrUpdateFamily`: the local insert comes first, then the remote
        write under `familyId.toString()` (not `remoteId`). A failing remote
        write leaves the local insert in place. */
    method AddOrUpdateFamily(family: FamilyEntity, generatedId: int, link: Link) returns (outcome: Outcome)
      requires family.familyId == 0 ==> generatedId != 0 && IntToString(generatedId) !in local
      modifies this
      ensures family.familyId != 0 ==> local == old(local)[Key(family) := family]
      ensures family.familyId == 0 ==> local == old(local)[IntToString(generatedId) := family.(familyId := generatedId)]
      ensures link.Up? ==> outcome == Done && remote == old(remote)[Key(family) := family]
      ensures link.Down? ==> outcome == Thrown(link.message) && remote == old(remote)
      ensures old(Valid()) ==> Valid()
    {
      var row := InsertLocal(family, generatedId);
      if link.Down? {
        return Thrown(link.message);
      }
      remote := remote[Key(family) := family];
      outcome := Done;
    }

    /** `deleteFamily`: the local delete comes first, then the remote one. A
        failing remote delete leaves the local delete in place. */
    method DeleteFamily(familyId: string, link: Link) returns (outcome: Outcome)
      modifies this
      ensures local == old(local) - {familyId} && familyId !in local
      ensures link.Up? ==> outcome == Done && remote == old(remote) - {familyId} && familyId !in remote
      ensures link.Down? ==> outcome == Thrown(link.message) && remote == old(remote)
      ensures old(Valid()) ==> Valid()
    {
      local := local - {familyId};
      if link.Down? {
        return Thrown(link.message);
      }
      remote := remote - {familyId};
      outcome := Done;
    }
  }
}
