/**
 The event endpoints of the backend: the event table and the RSVP table as
 maps, the RSVP upsert, the event listing, and the way each endpoint turns a
 missing row or a bad input into a typed HTTP error.
 */
module EventController {
  import opened Wrappers
  import opened Domain

  /** The RSVP table's unique key: one row per event and user. */
  datatype RsvpKey = RsvpKey(eventId: string, userId: string)

  /** The database: events by id, RSVPs by (event, user). */
  datatype Db = Db(events: map<string, Event>, rsvps: map<RsvpKey, Rsvp>)

  /** The result an endpoint returns together with the database after the call. */
  datatype Response<T> = Response(result: Result<T, HttpError>, db: Db)

  /** Every stored RSVP sits under its own (event, user) key. */
  ghost predicate WellFormed(db: Db) {
    forall k :: k in db.rsvps ==> db.rsvps[k].eventId == k.eventId && db.rsvps[k].userId == k.userId
  }

  /** No two stored RSVPs share an id. */
  ghost predicate UniqueIds(db: Db) {
    forall k1, k2 :: k1 in db.rsvps && k2 in db.rsvps && db.rsvps[k1].id == db.rsvps[k2].id ==> k1 == k2
  }

  /** `id` is not the id of any stored RSVP. */
  ghost predicate FreshRsvpId(db: Db, id: string) {
    forall k :: k in db.rsvps ==> db.rsvps[k].id != id
  }

  // ---------------------------------------------------------------------------
  // setEventRsvp

  /**
   `setEventRsvp`: the event must exist and must not have ended (its end
   before `now`); then the row for (event, user) is inserted with `freshId`
   and creation time `now`, or, if it already exists, only its status is
   overwritten.
   */
  function SetEventRsvp(db: Db, eventId: string, userId: string, status: Status, now: int, freshId: string): (resp: Response<Rsvp>)
    requires WellFormed(db)
    ensures WellFormed(resp.db)
    ensures eventId !in db.events ==>
      resp.result == Err(NotFound("Event not found")) && resp.db == db
    ensures eventId in db.events && db.events[eventId].endDate < now ==>
      resp.result == Err(BadRequest("Event has already ended")) && resp.db == db
    ensures resp.result.Ok? <==> eventId in db.events && db.events[eventId].endDate >= now
    ensures resp.result.Ok? ==>
      var r := resp.result.value;
      var key := RsvpKey(eventId, userId);
      && r.status == status && r.eventId == eventId && r.userId == userId
      && resp.db.events == db.events
      && resp.db.rsvps == db.rsvps[key := r]
      && (key in db.rsvps ==> r == db.rsvps[key].(status := status))
      && (key !in db.rsvps ==> r == Rsvp(freshId, eventId, userId, status, None, now))
  {
    if eventId !in db.events then Response(Err(NotFound("Event not found")), db)
    else if db.events[eventId].endDate < now then Response(Err(BadRequest("Event has already ended")), db)
    else
      var key := RsvpKey(eventId, userId);
      var row :=
        if key in db.rsvps then db.rsvps[key].(status := status)
        else Rsvp(freshId, eventId, userId, status, None, now);
      Response(Ok(row), db.(rsvps := db.rsvps[key := row]))
  }

  /** The upsert keeps RSVP ids unique when the id it would insert is fresh. */
  lemma SetEventRsvpKeepsIdsUnique(db: Db, eventId: string, userId: string, status: Status, now: int, freshId: string)
    requires WellFormed(db) && UniqueIds(db) && FreshRsvpId(db, freshId)
    ensures UniqueIds(SetEventRsvp(db, eventId, userId, status, now, freshId).db)
  {
    var resp := SetEventRsvp(db, eventId, userId, status, now, freshId);
    if resp.result.Ok? {
      var key := RsvpKey(eventId, userId);
      var r := resp.result.value;
      assert forall k :: k in db.rsvps && k != key ==> db.rsvps[k].id != r.id by {
        if key in db.rsvps {
          assert r.id == db.rsvps[key].id;
        }
      }
    }
  }

  /** A successful upsert adds a row only for a new (event, user) pair; the table never holds two. */
  lemma SetEventRsvpRowCount(db: Db, eventId: string, userId: string, status: Status, now: int, freshId: string)
    requires WellFormed(db)
    requires SetEventRsvp(db, eventId, userId, status, now, freshId).result.Ok?
    ensures var after := SetEventRsvp(db, eventId, userId, status, now, freshId).db;
      |after.rsvps| == |db.rsvps| + (if RsvpKey(eventId, userId) in db.rsvps then 0 else 1)
  {
    var key := RsvpKey(eventId, userId);
    var after := SetEventRsvp(db, eventId, userId, status, now, freshId).db;
    if key in db.rsvps {
      assert after.rsvps.Keys == db.rsvps.Keys;
    } else {
      assert after.rsvps.Keys == db.rsvps.Keys + {key};
    }
  }

  /** Repeating an RSVP call changes nothing more (the second call's fresh id goes unused). */
  lemma SetEventRsvpIdempotent(db: Db, eventId: string, userId: string, status: Status, now: int, id1: string, id2: string)
    requires WellFormed(db)
    ensures var first := SetEventRsvp(db, eventId, userId, status, now, id1);
      var second := SetEventRsvp(first.db, eventId, userId, status, now, id2);
      second == first
  {
  }

  /**
   Answering YES and then LATE leaves a single row for the pair, with status
   LATE and the id the first answer created; all other rows are untouched.
   */
  lemma SetEventRsvpUpdatesInPlace(db: Db, eventId: string, userId: string, now: int, id1: string, id2: string)
    requires WellFormed(db)
    requires eventId in db.events && db.events[eventId].endDate >= now
    requires RsvpKey(eventId, userId) !in db.rsvps
    ensures var first := SetEventRsvp(db, eventId, userId, YES, now, id1);
      var second := SetEventRsvp(first.db, eventId, userId, LATE, now, id2);
      var key := RsvpKey(eventId, userId);
      && second.result.Ok?
      && second.db.rsvps[key].status == LATE
      && second.db.rsvps[key].id == id1
      && |second.db.rsvps| == |db.rsvps| + 1
      && (forall k :: k != key ==> (k in second.db.rsvps <==> k in db.rsvps))
      && (forall k :: k != key && k in db.rsvps ==> second.db.rsvps[k] == db.rsvps[k])
  {
    var first := SetEventRsvp(db, eventId, userId, YES, now, id1);
    SetEventRsvpRowCount(db, eventId, userId, YES, now, id1);
    SetEventRsvpRowCount(first.db, eventId, userId, LATE, now, id2);
  }

  // ---------------------------------------------------------------------------
  // getEventRsvp

  /** `getEventRsvp`: the row for (event, user), if there is one. */
  function GetEventRsvp(db: Db, eventId: string, userId: string): (r: Option<Rsvp>)
    ensures r.Some? <==> RsvpKey(eventId, userId) in db.rsvps
    ensures r.Some? ==> r.value == db.rsvps[RsvpKey(eventId, userId)]
  {
    var key := RsvpKey(eventId, userId);
    if key in db.rsvps then Some(db.rsvps[key]) else None
  }

  /** Reading back after a successful set returns the row the set returned. */
  lemma GetAfterSet(db: Db, eventId: string, userId: string, status: Status, now: int, freshId: string, otherEvent: string, otherUser: string)
    requires WellFormed(db)
    requires SetEventRsvp(db, eventId, userId, status, now, freshId).result.Ok?
    ensures var resp := SetEventRsvp(db, eventId, userId, status, now, freshId);
      && GetEventRsvp(resp.db, eventId, userId) == Some(resp.result.value)
      && GetEventRsvp(resp.db, eventId, userId).value.status == status
      && ((otherEvent, otherUser) != (eventId, userId) ==>
          GetEventRsvp(resp.db, otherEvent, otherUser) == GetEventRsvp(db, otherEvent, otherUser))
  {
  }

  // ---------------------------------------------------------------------------
  // findAll

  /** The query string of the event listing; absent (or empty) fields impose nothing. */
  datatype ListQuery = ListQuery(from: Option<int>, to: Option<int>, take: Option<nat>, eventType: Option<EventType>)

  /**
   The listing's filter: with both bounds, the start must lie between them;
   with only `from`, the event must start or end at or after it; with only
   `to`, it must start or end at or before it; a type must match exactly.
   */
  predicate Matches(e: Event, q: ListQuery) {
    && (q.from.Some? && q.to.Some? ==> q.from.value <= e.startDate <= q.to.value)
    && (q.from.Some? && q.to.None? ==> e.startDate >= q.from.value || e.endDate >= q.from.value)
    && (q.from.None? && q.to.Some? ==> e.startDate <= q.to.value || e.endDate <= q.to.value)
    && (q.eventType.Some? ==> e.eventType == q.eventType.value)
  }

  /** A non-empty set of events has one that starts no later than any other. */
  lemma {:induction false} EarliestExists(s: set<Event>)
    requires s != {}
    ensures exists e :: e in s && forall x :: x in s ==> e.startDate <= x.startDate
  {
    var y :| y in s;
    var rest := s - {y};
    if rest != {} {
      EarliestExists(rest);
      var e :| e in rest && forall x :: x in rest ==> e.startDate <= x.startDate;
      if y.startDate < e.startDate {
        assert forall x :: x in s ==> y.startDate <= x.startDate;
      } else {
        assert forall x :: x in s ==> e.startDate <= x.startDate;
      }
    } else {
      assert s == {y};
    }
  }

  /**
   `findAll`: the matching events, ordered by start date, at most `take` of
   them; events beyond the limit start no earlier than the last one returned.
   Events with equal start dates come in no particular order, as from the
   database.
   */
  method FindAll(events: map<string, Event>, q: ListQuery) returns (r: seq<Event>)
    ensures forall i :: 0 <= i < |r| ==> r[i] in events.Values && Matches(r[i], q)
    ensures forall i, j :: 0 <= i < j < |r| ==> r[i].startDate <= r[j].startDate && r[i] != r[j]
    ensures q.take.Some? ==> |r| <= q.take.value
    ensures forall e :: e in events.Values && Matches(e, q) && e !in r ==>
      q.take.Some? && |r| == q.take.value && (|r| > 0 ==> r[|r| - 1].startDate <= e.startDate)
  {
    var pending := set e | e in events.Values && Matches(e, q);
    r := [];
    while pending != {} && (q.take.None? || |r| < q.take.value)
      invariant forall e :: e in pending ==> e in events.Values && Matches(e, q)
      invariant forall i :: 0 <= i < |r| ==> r[i] in events.Values && Matches(r[i], q) && r[i] !in pending
      invariant forall i, j :: 0 <= i < j < |r| ==> r[i].startDate <= r[j].startDate && r[i] != r[j]
      invariant forall i, e :: 0 <= i < |r| && e in pending ==> r[i].startDate <= e.startDate
      invariant forall e :: e in events.Values && Matches(e, q) ==> e in pending || e in r
      invariant q.take.Some? ==> |r| <= q.take.value
      decreases |pending|
    {
      EarliestExists(pending);
      var e :| e in pending && forall x :: x in pending ==> e.startDate <= x.startDate;
      r := r + [e];
      pending := pending - {e};
    }
  }

  // ---------------------------------------------------------------------------
  // findOne, update, scanin

  /** `findOne`: the event with this id, or 404 "Event not found". */
  function FindOne(events: map<string, Event>, id: string): (r: Result<Event, HttpError>)
    ensures r.Ok? <==> id in events
    ensures r.Ok? ==> r.value == events[id]
    ensures r.Err? ==> r.error == NotFound("Event not found")
  {
    if id in events then Ok(events[id]) else Err(NotFound("Event not found"))
  }

  /** The body of `update`: each field that is present replaces the stored one. */
  datatype EventPatch = EventPatch(
    title: Option<string>,
    description: Option<string>,
    startDate: Option<int>,
    endDate: Option<int>,
    eventType: Option<EventType>,
    allDay: Option<bool>)

  /** A body with no field set. */
  const EmptyPatch := EventPatch(None, None, None, None, None, None)

  function ApplyPatch(e: Event, p: EventPatch): (r: Event)
    ensures r.id == e.id && r.ruleId == e.ruleId
    ensures p == EmptyPatch ==> r == e
    ensures r.title == (if p.title.Some? then p.title.value else e.title)
    ensures r.description == (if p.description.Some? then p.description.value else e.description)
    ensures r.startDate == (if p.startDate.Some? then p.startDate.value else e.startDate)
    ensures r.endDate == (if p.endDate.Some? then p.endDate.value else e.endDate)
    ensures r.eventType == (if p.eventType.Some? then p.eventType.value else e.eventType)
    ensures r.allDay == (if p.allDay.Some? then p.allDay.value else e.allDay)
  {
    e.(
      title := p.title.GetOr(e.title),
      description := p.description.GetOr(e.description),
      startDate := p.startDate.GetOr(e.startDate),
      endDate := p.endDate.GetOr(e.endDate),
      eventType := p.eventType.GetOr(e.eventType),
      allDay := p.allDay.GetOr(e.allDay))
  }

  /**
   `update`: the event row with this id gets the patch; no row means 404
   "Event not found" and no change. Other events and all RSVPs are untouched.
   A body with no field set leaves the query builder nothing to set, so it
   throws before the query runs and the request fails with a 500, whatever
   the id.
   */
  function Update(db: Db, id: string, patch: EventPatch): (resp: Response<Event>)
    ensures resp.result.Err? <==> patch == EmptyPatch || id !in db.events
    ensures resp.result.Err? ==> resp.db == db
    ensures patch == EmptyPatch ==> resp.result == Err(InternalError("Internal server error"))
    ensures patch != EmptyPatch && id !in db.events ==> resp.result == Err(NotFound("Event not found"))
    ensures resp.result.Ok? ==>
      && resp.result.value == ApplyPatch(db.events[id], patch)
      && resp.result.value.id == db.events[id].id
      && resp.db.events == db.events[id := resp.result.value]
      && resp.db.rsvps == db.rsvps
  {
    if patch == EmptyPatch then Response(Err(InternalError("Internal server error")), db)
    else if id !in db.events then Response(Err(NotFound("Event not found")), db)
    else
      var updated := ApplyPatch(db.events[id], patch);
      Response(Ok(updated), db.(events := db.events[id := updated]))
  }

  /** Sending the same update twice leaves the database as one update did. */
  lemma UpdateIdempotent(db: Db, id: string, patch: EventPatch)
    ensures Update(Update(db, id, patch).db, id, patch).db == Update(db, id, patch).db
  {
  }

  /**
   `scanin`: the RSVP service looks the code up and records the scan; the
   controller turns "nothing found" into 400 "Invalid Scancode".
   */
  function ScaninResponse(serviceResult: Option<Rsvp>): (r: Result<Rsvp, HttpError>)
    ensures r.Err? <==> serviceResult.None?
    ensures r.Err? ==> r.error == BadRequest("Invalid Scancode")
    ensures r.Ok? ==> r.value == serviceResult.value
  {
    match serviceResult
    case None => Err(BadRequest("Invalid Scancode"))
    case Some(rsvp) => Ok(rsvp)
  }

  // ---------------------------------------------------------------------------
  // eventTokenCallback

  /** A JavaScript value that is truthy: present and not the empty string. */
  predicate Truthy(s: Option<string>) {
    s.Some? && s.value != ""
  }

  /** What the token callback does when it does not fail. */
  datatype CallbackAction =
    /** Redirect to the Discord login, remembering the original URL in the `redirectTo` cookie. */
    | LoginRedirect(redirectToCookie: string, location: string)
    /** Check the user in with the code, then redirect to the event's page. */
    | CheckinAndRedirect(eventId: string, userId: string, code: string, location: string)

  const DiscordLoginPath := "/api/auth/discord"

  /**
   `eventTokenCallback`: a missing code is a bad request; a visitor without a
   session is sent to log in and comes back to the same URL; a signed-in
   user is checked in and sent to the event page of the front end.
   */
  function TokenCallback(code: Option<string>, userId: Option<string>, eventId: string, originalUrl: string, frontendUrl: string): (r: Result<CallbackAction, HttpError>)
    ensures r.Err? <==> !Truthy(code)
    ensures r.Err? ==> r.error == BadRequest("Code is required")
    ensures r.Ok? && r.value.LoginRedirect? <==> Truthy(code) && !Truthy(userId)
    ensures r.Ok? && r.value.LoginRedirect? ==>
      r.value.redirectToCookie == originalUrl && r.value.location == DiscordLoginPath
    ensures r.Ok? && r.value.CheckinAndRedirect? ==>
      && r.value.eventId == eventId && r.value.userId == userId.value && r.value.code == code.value
      && r.value.location == frontendUrl + "/events/" + eventId
  {
    if !Truthy(code) then Err(BadRequest("Code is required"))
    else if !Truthy(userId) then Ok(LoginRedirect(originalUrl, DiscordLoginPath))
    else Ok(CheckinAndRedirect(eventId, userId.value, code.value, frontendUrl + "/events/" + eventId))
  }
}
