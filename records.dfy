/** The records the front end receives from the backend API and passes
    between components. A date the backend leaves empty or null is `None`. */
module Records {
  import opened Wrappers
  import opened JsValue

  /** A stored date as `parseISO` or `new Date` reads it: a timestamp in
      milliseconds, or an Invalid Date. An Invalid Date is a truthy object
      with which every comparison is false. */
  datatype Timestamp = Valid(ms: int) | InvalidDate

  /** `d && now > d` for an optional stored date. */
  predicate Passed(d: Option<Timestamp>, now: int) {
    d.Some? && d.value.Valid? && now > d.value.ms
  }

  /** `d && now < d` for an optional stored date. */
  predicate Ahead(d: Option<Timestamp>, now: int) {
    d.Some? && d.value.Valid? && now < d.value.ms
  }

  /** An event row of `GET /api/events`. */
  datatype Event = Event(
    id: string,
    title: string,
    description: Option<string>,
    createdBy: Option<string>,
    isActive: bool,
    registrationOpen: bool,
    eventDate: Option<Timestamp>,
    eventEndDate: Option<Timestamp>,
    registrationStart: Option<Timestamp>,
    registrationEnd: Option<Timestamp>,
    bannerUrl: string)

  /** An event is completed once `now` is past its end date; an event
      without an end date, or with one that does not parse, is never
      completed. */
  predicate IsCompleted(e: Event, now: int) {
    Passed(e.eventEndDate, now)
  }

  /** A registration row of `GET /api/participants/{eventId}`. */
  datatype Participant = Participant(
    id: string,
    status: string,
    createdAt: int,
    responses: map<string, Value>)

  /** The JSON body of one participants request: `success` and the
      `participants` array, which may be missing. */
  datatype ParticipantResult = ParticipantResult(success: bool, participants: Option<seq<Participant>>)

  /** `result.success && result.participants`: an empty array is truthy,
      a missing one is not. */
  predicate Delivered(res: ParticipantResult) {
    res.success && res.participants.Some?
  }

  /** One field of an event's registration form, as the form builder
      edits it and the registration form renders it. */
  datatype Field = Field(
    id: string,
    fieldType: string,
    labelText: string,
    required: bool,
    options: seq<string>,
    placeholder: Option<string>)
}
