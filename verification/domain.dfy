/**
 The entities shared by the backend, the bot and the web front end: events,
 RSVPs and their statuses, and the HTTP errors the endpoints raise.
 Timestamps are milliseconds since the epoch.
 */
module Domain {
  import opened Wrappers

  /** An RSVP's status. */
  datatype Status = YES | NO | MAYBE | LATE | ATTENDED

  /** The kind of an event. */
  datatype EventType = Regular | Outreach | Mentor | Social

  datatype Event = Event(
    id: string,
    title: string,
    description: string,
    startDate: int,
    endDate: int,
    eventType: EventType,
    allDay: bool,
    ruleId: Option<string>)

  /** One user's answer for one event; `delay` is the announced lateness in minutes. */
  datatype Rsvp = Rsvp(
    id: string,
    eventId: string,
    userId: string,
    status: Status,
    delay: Option<int>,
    createdAt: int)

  /**
   The HTTP errors a controller answers with. `InternalError` is the 500
   response NestJS gives for an exception that is not an HTTP exception.
   */
  datatype HttpError = NotFound(message: string) | BadRequest(message: string) | InternalError(message: string)

  /** A user's status counts as coming when it is YES or LATE. */
  predicate IsComing(s: Status) {
    s == YES || s == LATE
  }
}
