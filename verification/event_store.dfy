/**
 * The settlement-event table (idempotency records) and `EventPixService.create`.
 * The table is the sequence of its rows in insertion order.
 */
module EventStore {
  import opened Wrappers
  import opened Entities

  /** No two records share an event id (the column's unique constraint). */
  ghost predicate UniqueEventIds(events: seq<EventPix>) {
    forall i, j :: 0 <= i < j < |events| ==> events[i].eventId != events[j].eventId
  }

  /** `findByEventId`: the record of event `eventId`, or nothing. */
  function FindByEventId(events: seq<EventPix>, eventId: string): (r: Option<EventPix>)
    ensures r.Some? ==> r.value in events && r.value.eventId == eventId
    ensures r.None? <==> forall k :: 0 <= k < |events| ==> events[k].eventId != eventId
  {
    if |events| == 0 then None
    else
      match FindByEventId(events[..|events| - 1], eventId)
      case Some(e) => Some(e)
      case None => if events[|events| - 1].eventId == eventId then Some(events[|events| - 1]) else None
  }

  /**
   * `EventPixService.create`: refuses a record whose event id is already present,
   * otherwise saves it and returns it.
   */
  function Create(events: seq<EventPix>, e: EventPix): (r: Result<(seq<EventPix>, EventPix), Error>)
    ensures r.Err? <==> exists k :: 0 <= k < |events| && events[k].eventId == e.eventId
    ensures r.Err? ==> r.error == EventPixIdAlreadyExists
    ensures r.Ok? ==> r.value.1 == e
    ensures r.Ok? ==> |r.value.0| == |events| + 1 && r.value.0[..|events|] == events && r.value.0[|events|] == e
    ensures r.Ok? && UniqueEventIds(events) ==> UniqueEventIds(r.value.0)
  {
    if FindByEventId(events, e.eventId).Some? then Err(EventPixIdAlreadyExists)
    else Ok((events + [e], e))
  }

  /** After a successful create the event id is present, and a second create of it is refused. */
  lemma CreateThenPresent(events: seq<EventPix>, e: EventPix)
    requires Create(events, e).Ok?
    ensures FindByEventId(Create(events, e).value.0, e.eventId).Some?
    ensures Create(Create(events, e).value.0, e) == Err(EventPixIdAlreadyExists)
  {
    var events' := Create(events, e).value.0;
    assert events'[|events|].eventId == e.eventId;
  }

  /** Records of every other event id are where they were and still found as before. */
  lemma {:induction false} CreateLeavesOthers(events: seq<EventPix>, e: EventPix, eventId: string)
    requires Create(events, e).Ok? && eventId != e.eventId
    ensures FindByEventId(Create(events, e).value.0, eventId) == FindByEventId(events, eventId)
  {
    assert (events + [e])[..|events|] == events;
  }
}
