/** `EventViewModel`: the event list the screens observe, kept current by a
    collector of the repository's snapshot flow, and the add/update/delete
    actions that go through the repository. Each action runs as one step. */
module EventViewModelModule {
  import opened Wrappers
  import opened Strings
  import opened Model
  import opened EventRepositoryModule

  /** A collector launched by `startLoadingEvents`: the family whose flow it
      collects, and whether it is still running. */
  datatype Job = Job(familyId: string, active: bool)

  /** `getEventsForDate`: the events that start on `date`, in list order;
      `dayOf` is `toLocalDate` under the device's time zone. */
  function EventsStartingOn(events: seq<Event>, date: int, dayOf: int -> int): (r: seq<Event>)
    ensures IsSubsequence(r, events)
    ensures forall e :: e in r <==> e in events && dayOf(e.startDate) == date
    ensures forall e :: multiset(r)[e] == if dayOf(e.startDate) == date then multiset(events)[e] else 0
  {
    if events == [] then []
    else
      var rest := EventsStartingOn(events[1..], date, dayOf);
      assert forall e :: e in events <==> e == events[0] || e in events[1..];
      assert multiset(events) == multiset{events[0]} + multiset(events[1..]) by {
        assert events == [events[0]] + events[1..];
      }
      assert multiset([events[0]] + rest) == multiset{events[0]} + multiset(rest);
      if dayOf(events[0].startDate) == date then [events[0]] + rest else rest
  }

  /** `filterNot { it.id == id }`: the list without the entries with that id,
      the others kept in order. */
  function WithoutId(events: seq<Event>, id: string): (r: seq<Event>)
    ensures IsSubsequence(r, events)
    ensures forall e :: e in r <==> e in events && e.id != id
    ensures forall e :: multiset(r)[e] == if e.id != id then multiset(events)[e] else 0
  {
    if events == [] then []
    else
      var rest := WithoutId(events[1..], id);
      assert forall e :: e in events <==> e == events[0] || e in events[1..];
      assert multiset(events) == multiset{events[0]} + multiset(events[1..]) by {
        assert events == [events[0]] + events[1..];
      }
      assert multiset([events[0]] + rest) == multiset{events[0]} + multiset(rest);
      if events[0].id == id then rest else [events[0]] + rest
  }

  /** A subsequence of a list has no more entries than the list, and removing
      the entries with an id shortens the list exactly when one is there. */
  lemma {:induction false} WithoutIdShrinks(events: seq<Event>, id: string)
    ensures |WithoutId(events, id)| <= |events|
    ensures |WithoutId(events, id)| == |events| <==> forall e :: e in events ==> e.id != id
  {
    if events != [] {
      WithoutIdShrinks(events[1..], id);
      assert forall e :: e in events <==> e == events[0] || e in events[1..];
    }
  }

  /** The family-id back-fill of `addEvent`, `updateEvent` and `deleteEvent`:
      a blank familyId takes the family being loaded, when there is one. */
  function BackFill(event: Event, currentFamilyId: Option<string>): (r: Event)
    ensures r == event.(familyId := r.familyId)
    ensures !IsBlank(event.familyId) || currentFamilyId.None? ==> r == event
    ensures IsBlank(event.familyId) && currentFamilyId.Some? ==> r.familyId == currentFamilyId.value
  {
    if IsBlank(event.familyId) && currentFamilyId.Some? then event.(familyId := currentFamilyId.value) else event
  }

  class EventViewModel {
    /** `_events`. */
    var events: seq<Event>
    /** Every collector ever launched, oldest first. */
    var jobs: seq<Job>
    /** `loadEventsJob`, as a position in `jobs`. */
    var loadEventsJob: Option<nat>
    var currentFamilyId: Option<string>
    const repository: EventRepository

    predicate Valid()
      reads this
    {
      loadEventsJob.Some? ==> loadEventsJob.value < |jobs|
    }

    constructor (repository: EventRepository)
      ensures events == [] && jobs == [] && loadEventsJob == None && currentFamilyId == None
      ensures this.repository == repository && Valid()
    {
      events := [];
      jobs := [];
      loadEventsJob := None;
      currentFamilyId := None;
      this.repository := repository;
    }

    /** `loadEventsJob?.isActive == true`. */
    predicate Loading()
      reads this
      requires Valid()
    {
      loadEventsJob.Some? && jobs[loadEventsJob.value].active
    }

    /** `startLoadingEvents`: nothing happens when the running collector
        already serves this family, or when the id is blank; otherwise the
        family becomes current and a new collector is launched. The previous
        collector is not cancelled and keeps running. */
    method StartLoadingEvents(familyId: string)
      requires Valid()
      modifies this
      ensures Valid()
      ensures (old(Loading()) && old(currentFamilyId) == Some(familyId)) || IsBlank(familyId) ==>
                jobs == old(jobs) && loadEventsJob == old(loadEventsJob) && currentFamilyId == old(currentFamilyId)
      ensures !(old(Loading()) && old(currentFamilyId) == Some(familyId)) && !IsBlank(familyId) ==>
                && currentFamilyId == Some(familyId)
                && jobs == old(jobs) + [Job(familyId, true)]
                && loadEventsJob == Some(|old(jobs)|)
      ensures events == old(events)
    {
      if Loading() && currentFamilyId == Some(familyId) {
        return;
      }
      if IsBlank(familyId) {
        return;
      }
      currentFamilyId := Some(familyId);
      jobs := jobs + [Job(familyId, true)];
      loadEventsJob := Some(|jobs| - 1);
    }

    /** `stopLoadingEvents`: cancels the current collector and empties the
        list; the current family is kept, and older collectors keep running. */
    method StopLoadingEvents()
      requires Valid()
      modifies this
      ensures Valid() && events == [] && !Loading()
      ensures loadEventsJob == old(loadEventsJob) && currentFamilyId == old(currentFamilyId)
      ensures loadEventsJob.None? ==> jobs == old(jobs)
      ensures loadEventsJob.Some? ==> jobs == old(jobs)[loadEventsJob.value := Job(old(jobs)[loadEventsJob.value].familyId, false)]
    {
      if loadEventsJob.Some? {
        var j := loadEventsJob.value;
        jobs := jobs[j := Job(jobs[j].familyId, false)];
      }
      events := [];
    }

    /** Collector `j` receives the next snapshot of its family's events: a
        running collector replaces the whole list with it; a listener error
        ends the collector and leaves the list alone. */
    method Collect(j: nat, link: Link)
      requires Valid() && j < |jobs|
      modifies this
      ensures Valid() && loadEventsJob == old(loadEventsJob) && currentFamilyId == old(currentFamilyId)
      ensures !old(jobs[j].active) || link.Down? ==> events == old(events)
      ensures link.Down? ==> jobs == old(jobs)[j := Job(old(jobs)[j].familyId, false)]
      ensures link.Up? ==> jobs == old(jobs)
      ensures old(jobs[j].active) && link.Up? ==>
                && |events| == |Decoded(repository.Events(jobs[j].familyId)).Keys|
                && forall e :: e in events <==> e in Decoded(repository.Events(jobs[j].familyId)).Values
    {
      if !jobs[j].active {
        if link.Down? {
          jobs := jobs[j := Job(jobs[j].familyId, false)];
        }
        return;
      }
      var snapshot, ids := repository.Snapshot(jobs[j].familyId, link);
      match snapshot
      case Failure(_) =>
        jobs := jobs[j := Job(jobs[j].familyId, false)];
      case Success(list) =>
        ghost var docs := Decoded(repository.Events(jobs[j].familyId));
        SnapshotCovers(list, ids, docs);
        events := list;
    }

    /** `getEventsForDate`. */
    function GetEventsForDate(date: int, dayOf: int -> int): (r: seq<Event>)
      reads this
      ensures IsSubsequence(r, events)
      ensures forall e :: e in r <==> e in events && dayOf(e.startDate) == date
      ensures forall e :: multiset(r)[e] == if dayOf(e.startDate) == date then multiset(events)[e] else 0
    {
      EventsStartingOn(events, date, dayOf)
    }

    /** `addEvent`: back-fills the family id, sets `createdBy` to the user id
        (or "" without one) and hands the event to the repository. The
        caller's event object is changed in place; `sent` is it afterwards.
        The list itself waits for the next snapshot. */
    method AddEvent(event: Event, userId: Option<string>, newId: string, link: Link) returns (sent: Event, outcome: Outcome)
      requires newId !in repository.Events(BackFill(event, currentFamilyId).familyId)
      modifies repository
      ensures var filled := BackFill(event, old(currentFamilyId)).(createdBy := userId.GetOr(""));
        && (IsBlank(filled.familyId) ==> sent == filled && outcome == Thrown(Some(FamilyIdRequired))
                                         && repository.families == old(repository.families))
        && (!IsBlank(filled.familyId) ==> sent == filled.(id := newId))
        && (!IsBlank(filled.familyId) && link.Up? ==>
              outcome == Done
              && repository.Events(filled.familyId) == old(repository.Events(filled.familyId))[newId := Some(sent)])
        && (!IsBlank(filled.familyId) && link.Down? ==>
              outcome == Thrown(link.message) && repository.families == old(repository.families))
      ensures forall f :: f != sent.familyId ==> repository.Events(f) == old(repository.Events(f))
    {
      var filled := BackFill(event, currentFamilyId).(createdBy := userId.GetOr(""));
      sent, outcome := repository.AddEvent(filled, newId, link);
    }

    /** `updateEvent`: back-fills the family id and writes the event. */
    method UpdateEvent(event: Event, link: Link) returns (sent: Event, outcome: Outcome)
      modifies repository
      ensures sent == BackFill(event, currentFamilyId)
      ensures link.Up? ==>
                outcome == Done
                && repository.Events(sent.familyId) == old(repository.Events(sent.familyId))[sent.id := Some(sent)]
      ensures link.Down? ==> outcome == Thrown(link.message) && repository.families == old(repository.families)
      ensures forall f :: f != sent.familyId ==> repository.Events(f) == old(repository.Events(f))
    {
      sent := BackFill(event, currentFamilyId);
      outcome := repository.UpdateEvent(sent, link);
    }

    /** `deleteEvent`: back-fills the family id and deletes the document; only
        when that succeeds does the list drop every entry with the event's
        id. */
    method DeleteEvent(event: Event, link: Link) returns (sent: Event, outcome: Outcome)
      modifies this, repository
      ensures sent == BackFill(event, old(currentFamilyId))
      ensures jobs == old(jobs) && loadEventsJob == old(loadEventsJob) && currentFamilyId == old(currentFamilyId)
      ensures link.Up? ==>
                outcome == Done && events == WithoutId(old(events), event.id)
                && repository.Events(sent.familyId) == old(repository.Events(sent.familyId)) - {sent.id}
      ensures link.Down? ==>
                outcome == Thrown(link.message) && events == old(events)
                && repository.families == old(repository.families)
      ensures forall f :: f != sent.familyId ==> repository.Events(f) == old(repository.Events(f))
    {
      sent := BackFill(event, currentFamilyId);
      outcome := repository.DeleteEvent(sent, link);
      if outcome == Done {
        events := WithoutId(events, event.id);
      }
    }
  }

  /** A snapshot that lists every decoded document once, by its id, has as
      many entries as there are such documents and holds exactly their
      events. */
  lemma SnapshotCovers(list: seq<Event>, ids: seq<string>, docs: map<string, Event>)
    requires |list| == |ids|
    requires forall i, j :: 0 <= i < j < |ids| ==> ids[i] != ids[j]
    requires forall id :: id in ids <==> id in docs
    requires forall i :: 0 <= i < |ids| ==> list[i] == docs[ids[i]]
    ensures |list| == |docs.Keys|
    ensures forall e :: e in list <==> e in docs.Values
  {
    DistinctCardinality(ids);
    assert (set i | 0 <= i < |ids| :: ids[i]) == docs.Keys;
    forall e | e in docs.Values
      ensures e in list
    {
      var id :| id in docs && docs[id] == e;
      var i :| 0 <= i < |ids| && ids[i] == id;
      assert list[i] == e;
    }
  }

  /** A list without repetitions has as many distinct elements as entries. */
  lemma {:induction false} DistinctCardinality(ids: seq<string>)
    requires forall i, j :: 0 <= i < j < |ids| ==> ids[i] != ids[j]
    ensures |set i | 0 <= i < |ids| :: ids[i]| == |ids|
  {
    if ids != [] {
      var rest := ids[..|ids| - 1];
      DistinctCardinality(rest);
      var last := ids[|ids| - 1];
      assert (set i | 0 <= i < |ids| :: ids[i]) == (set i | 0 <= i < |rest| :: rest[i]) + {last};
      assert last !in (set i | 0 <= i < |rest| :: rest[i]);
    }
  }
}
