/** `EventRepository`: the events of each family live in the document
    collection `families/{familyId}/events`, one document per event, keyed by
    the event's id. */
module EventRepositoryModule {
  import opened Wrappers
  import opened Strings
  import opened Model

  /** The message of the `require` in `addEvent`. */
  const FamilyIdRequired := "familyId must not be null or blank"

  /** The documents of one events collection that decode as an `Event`. */
  function Decoded(docs: map<string, Option<Event>>): (events: map<string, Event>)
    ensures events.Keys <= docs.Keys
    ensures forall id :: id in docs ==> (id in events <==> docs[id].Some?)
    ensures forall id :: id in events ==> docs[id] == Some(events[id])
  {
    map id | id in docs && docs[id].Some? :: docs[id].value
  }

  class EventRepository {
    /** Every events sub-collection, by family id. A document that does not
        decode as an `Event` (written by some other client) is `None`. */
    var families: map<string, map<string, Option<Event>>>

    constructor ()
      ensures families == map[]
    {
      families := map[];
    }

    /** `getEventSubCollection(familyId)`: a collection that was never written
        is empty. */
    function Events(familyId: string): (docs: map<string, Option<Event>>)
      reads this
      ensures familyId in families ==> docs == families[familyId]
      ensures familyId !in families ==> docs == map[]
    {
      if familyId in families then families[familyId] else map[]
    }

    /** Every event this repository stores sits under its own id in its own
        family's collection. */
    predicate Valid()
      reads this
    {
      forall f, id :: f in families && id in families[f] && families[f][id].Some? ==>
        families[f][id].value.id == id && families[f][id].value.familyId == f
    }

    /** `addEvent`: a blank familyId throws before anything happens; otherwise
        the event gets the id of a new document (`newId`, which Firestore
        draws fresh) and is written there. The assignment to `event.id` is
        visible to the caller even when the write fails; `withId` is the
        event after it. */
    method AddEvent(event: Event, newId: string, link: Link) returns (withId: Event, outcome: Outcome)
      requires newId !in Events(event.familyId)
      modifies this
      ensures IsBlank(event.familyId) ==>
                withId == event && outcome == Thrown(Some(FamilyIdRequired)) && families == old(families)
      ensures !IsBlank(event.familyId) ==> withId == event.(id := newId)
      ensures !IsBlank(event.familyId) && link.Up? ==>
                outcome == Done && Events(event.familyId) == old(Events(event.familyId))[newId := Some(withId)]
      ensures !IsBlank(event.familyId) && link.Down? ==>
                outcome == Thrown(link.message) && families == old(families)
      ensures forall f :: f != event.familyId ==> Events(f) == old(Events(f))
      ensures old(Valid()) ==> Valid()
    {
      if IsBlank(event.familyId) {
        return event, Thrown(Some(FamilyIdRequired));
      }
      withId := event.(id := newId);
      if link.Down? {
        return withId, Thrown(link.message);
      }
      families := families[event.familyId := Events(event.familyId)[newId := Some(withId)]];
      outcome := Done;
    }

    /** `updateEvent`: writes the event at its id in its family's collection,
        replacing any document there or creating one. Its null check on the id
        can never fire (the id is a non-null string), so no id or familyId is
        rejected. */
    method UpdateEvent(event: Event, link: Link) returns (outcome: Outcome)
      modifies this
      ensures link.Up? ==>
                outcome == Done && Events(event.familyId) == old(Events(event.familyId))[event.id := Some(event)]
      ensures link.Down? ==> outcome == Thrown(link.message) && families == old(families)
      ensures forall f :: f != event.familyId ==> Events(f) == old(Events(f))
      ensures old(Valid()) ==> Valid()
    {
      if link.Down? {
        return Thrown(link.message);
      }
      families := families[event.familyId := Events(event.familyId)[event.id := Some(event)]];
      outcome := Done;
    }

    /** `deleteEvent`: removes the document at the event's id from its family's
        collection; deleting a document that does not exist succeeds and
        changes nothing. */
    method DeleteEvent(event: Event, link: Link) returns (outcome: Outcome)
      modifies this
      ensures link.Up? ==>
                outcome == Done && Events(event.familyId) == old(Events(event.familyId)) - {event.id}
      ensures link.Down? || event.id !in old(Events(event.familyId)) ==> families == old(families)
      ensures link.Down? ==> outcome == Thrown(link.message)
      ensures forall f :: f != event.familyId ==> Events(f) == old(Events(f))
      ensures old(Valid()) ==> Valid()
    {
      if link.Down? {
        return Thrown(link.message);
      }
      if event.id in Events(event.familyId) {
        families := families[event.familyId := Events(event.familyId) - {event.id}];
      }
      outcome := Done;
    }

    /** One emission of `getEventsForFamilyFlow(familyId)`: every document of
        the collection that decodes as an `Event`, each once (`ids` are their
        document ids, in the same order); a listener error closes the flow
        with that error instead. The order of the documents is Firestore's and
        is left open here. */
    method Snapshot(familyId: string, link: Link) returns (outcome: Result<seq<Event>, Option<string>>, ids: seq<string>)
      ensures link.Down? ==> outcome == Failure(link.message) && ids == []
      ensures link.Up? ==> outcome.Success? && |outcome.value| == |ids|
      ensures forall i, j :: 0 <= i < j < |ids| ==> ids[i] != ids[j]
      ensures link.Up? ==> forall id :: id in ids <==> id in Decoded(Events(familyId))
      ensures link.Up? ==> forall i :: 0 <= i < |ids| ==> outcome.value[i] == Decoded(Events(familyId))[ids[i]]
      ensures link.Up? && Valid() ==>
                forall i :: 0 <= i < |ids| ==> outcome.value[i].id == ids[i] && outcome.value[i].familyId == familyId
    {
      ids := [];
      if link.Down? {
        return Failure(link.message), ids;
      }
      var docs := Events(familyId);
      var pending := docs.Keys;
      var events: seq<Event> := [];
      while pending != {}
        invariant pending <= docs.Keys
        invariant |events| == |ids|
        invariant forall i, j :: 0 <= i < j < |ids| ==> ids[i] != ids[j]
        invariant forall id :: id in ids ==> id in docs && id !in pending && docs[id].Some?
        invariant forall id :: id in docs && id !in pending && docs[id].Some? ==> id in ids
        invariant forall i :: 0 <= i < |ids| ==> Some(events[i]) == docs[ids[i]]
        decreases |pending|
      {
        var id :| id in pending;
        if docs[id].Some? {
          ids := ids + [id];
          events := events + [docs[id].value];
        }
        pending := pending - {id};
      }
      outcome := Success(events);
    }
  }
}
