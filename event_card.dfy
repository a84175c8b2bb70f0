/** The event card: the status pill, the date line and the button. */
module EventCard {
  import opened Wrappers
  import opened Records

  /** The status pill; `Opens` carries the registration start, which the
      card prints as a month and day. */
  datatype Status =
    | Completed
    | Inactive
    | Opens(registrationStart: int)
    | RegistrationClosed
    | RegistrationOpen
    | Closed

  /** Both registration dates parse and `now` lies from the start up to,
      not including, the end. */
  predicate InWindow(regStart: Option<Timestamp>, regEnd: Option<Timestamp>, now: int) {
    regStart.Some? && regStart.value.Valid? && regEnd.Some? && regEnd.value.Valid? &&
    regStart.value.ms <= now < regEnd.value.ms
  }

  /** The checks of `getEventStatus`, in order of precedence. */
  function GetEventStatus(e: Event, now: int): (r: Status)
    ensures r == Completed <==> IsCompleted(e, now)
    ensures r == Inactive <==> !IsCompleted(e, now) && !e.isActive
    ensures r.Opens? <==> !IsCompleted(e, now) && e.isActive && Ahead(e.registrationStart, now)
    ensures r.Opens? ==> e.registrationStart == Some(Valid(r.registrationStart))
    ensures r == RegistrationClosed <==>
      !IsCompleted(e, now) && e.isActive && !Ahead(e.registrationStart, now) &&
      (Passed(e.registrationEnd, now) || !e.registrationOpen)
    ensures r == RegistrationOpen <==>
      !IsCompleted(e, now) && e.isActive && e.registrationOpen &&
      (InWindow(e.registrationStart, e.registrationEnd, now) ||
       (e.registrationStart.None? && e.registrationEnd.None?))
    ensures r == Closed <==>
      !IsCompleted(e, now) && e.isActive && e.registrationOpen &&
      !Ahead(e.registrationStart, now) && !Passed(e.registrationEnd, now) &&
      !InWindow(e.registrationStart, e.registrationEnd, now) &&
      !(e.registrationStart.None? && e.registrationEnd.None?)
  {
    var regStart := e.registrationStart;
    var regEnd := e.registrationEnd;
    if IsCompleted(e, now) then Completed
    else if !e.isActive then Inactive
    else if Ahead(regStart, now) then Opens(regStart.value.ms)
    else if Passed(regEnd, now) || !e.registrationOpen then RegistrationClosed
    else if InWindow(regStart, regEnd, now) && e.registrationOpen then RegistrationOpen
    else if e.registrationOpen && regStart.None? && regEnd.None? then RegistrationOpen
    else Closed
  }

  /** The cases that fall through to 'Closed' for a live, open event whose
      registration has neither passed nor is still ahead: a single
      registration date, `now` equal to the registration end, or a
      registration date that does not parse. */
  lemma ClosedCases(e: Event, now: int)
    requires !IsCompleted(e, now) && e.isActive && e.registrationOpen
    ensures e.registrationStart == Some(Valid(now)) && e.registrationEnd.None? ==> GetEventStatus(e, now) == Closed
    ensures e.registrationStart.None? && e.registrationEnd == Some(Valid(now)) ==> GetEventStatus(e, now) == Closed
    ensures (exists t :: t <= now && e.registrationStart == Some(Valid(t))) && e.registrationEnd == Some(Valid(now)) ==>
      GetEventStatus(e, now) == Closed
    ensures e.registrationStart == Some(InvalidDate) && e.registrationEnd.None? ==> GetEventStatus(e, now) == Closed
    ensures e.registrationStart.None? && e.registrationEnd == Some(InvalidDate) ==> GetEventStatus(e, now) == Closed
  {
  }

  /** The date line: `Date TBA` without a start date; otherwise the start
      (and end, when there is one) rendered in the Asia/Kolkata zone,
      which throws for a date that does not parse. */
  datatype DateLine = DateTba | Scheduled(start: int, end: Option<int>) | Unformattable

  function FormatEventDate(start: Option<Timestamp>, end: Option<Timestamp>): (r: DateLine)
    ensures r == DateTba <==> start.None?
    ensures r == Unformattable <==> start.Some? && (start.value == InvalidDate || end == Some(InvalidDate))
    ensures r.Scheduled? ==>
      start == Some(Valid(r.start)) &&
      (r.end.None? <==> end.None?) &&
      (r.end.Some? ==> end == Some(Valid(r.end.value)))
  {
    if start.None? then DateTba
    else if start.value == InvalidDate || end == Some(InvalidDate) then Unformattable
    else Scheduled(start.value.ms, if end.Some? then Some(end.value.ms) else None)
  }

  /** The card's button: its text, and whether it is disabled. A
      completed event reads `View Details` whether or not it is active,
      but the button is disabled exactly when the event is inactive. */
  datatype CardButton = CardButton(caption: string, disabled: bool)

  function Button(e: Event, now: int): (r: CardButton)
    ensures r.caption == "View Details" <==> IsCompleted(e, now)
    ensures r.caption == "View Event" <==> !IsCompleted(e, now) && e.isActive
    ensures r.caption == "Inactive" <==> !IsCompleted(e, now) && !e.isActive
    ensures r.disabled <==> !e.isActive
  {
    var isCompleted := GetEventStatus(e, now) == Completed;
    var caption := if isCompleted then "View Details" else if e.isActive then "View Event" else "Inactive";
    CardButton(caption, !e.isActive)
  }
}
