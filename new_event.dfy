/** Creating an event: the date-order checks, the conversion of the
    date fields, the banner choice, the request payload and the outcome of
    a submission. Date parsing and ISO formatting are parameters: `parse`
    yields `None` for text `new Date` cannot read (an invalid date, with
    which every comparison is false), and `iso` yields `None` where
    `toISOString` throws. */
module NewEvent {
  import opened Wrappers
  import opened JsValue

  const EventOrder := "Event end date cannot be before the event start date."
  const RegistrationOrder := "Registration end date cannot be before the registration start date."

  /** `new Date(b) < new Date(a)` for two form values. */
  predicate Before(parse: string -> Option<int>, b: Value, a: Value) {
    var tb := parse(ToString(b));
    var ta := parse(ToString(a));
    tb.Some? && ta.Some? && tb.value < ta.value
  }

  /** Both dates are filled in and the end lies before the start. */
  predicate EndsBeforeStart(form: map<string, Value>, startKey: string, endKey: string, parse: string -> Option<int>) {
    Truthy(Get(form, endKey)) && Truthy(Get(form, startKey)) &&
    Before(parse, Get(form, endKey), Get(form, startKey))
  }

  /** The validation block of `handleSubmit`: the alert that stops the
      submission, the event dates first. */
  function DateOrderError(form: map<string, Value>, parse: string -> Option<int>): (r: Option<string>)
    ensures r == Some(EventOrder) <==> EndsBeforeStart(form, "event_date", "event_end_date", parse)
    ensures r == Some(RegistrationOrder) <==>
      !EndsBeforeStart(form, "event_date", "event_end_date", parse) &&
      EndsBeforeStart(form, "registration_start", "registration_end", parse)
    ensures r.None? <==>
      !EndsBeforeStart(form, "event_date", "event_end_date", parse) &&
      !EndsBeforeStart(form, "registration_start", "registration_end", parse)
  {
    if EndsBeforeStart(form, "event_date", "event_end_date", parse) then Some(EventOrder)
    else if EndsBeforeStart(form, "registration_start", "registration_end", parse) then Some(RegistrationOrder)
    else None
  }

  /** An end equal to its start, or a date left empty on either side,
      passes the checks. */
  lemma EqualOrMissingDatesPass(form: map<string, Value>, parse: string -> Option<int>)
    requires !Truthy(Get(form, "event_date")) || !Truthy(Get(form, "event_end_date")) ||
      parse(ToString(Get(form, "event_date"))) == parse(ToString(Get(form, "event_end_date")))
    requires !Truthy(Get(form, "registration_start")) || !Truthy(Get(form, "registration_end")) ||
      parse(ToString(Get(form, "registration_start"))) == parse(ToString(Get(form, "registration_end")))
    ensures DateOrderError(form, parse).None?
  {
  }

  /** `toISOString`: an empty value becomes `null`; `None` means the
      conversion throws. */
  function ToIsoString(v: Value, iso: string -> Option<string>): (r: Option<Value>)
    ensures !Truthy(v) ==> r == Some(Null)
    ensures Truthy(v) ==> (r.None? <==> iso(ToString(v)).None?)
    ensures Truthy(v) && r.Some? ==> r.value == Str(iso(ToString(v)).value)
  {
    if !Truthy(v) then Some(Null)
    else
      match iso(ToString(v))
      case None => None
      case Some(t) => Some(Str(t))
  }

  /** Where `finalBannerUrl` comes from. */
  datatype BannerSource = FromUpload | Typed(url: string) | NoBanner

  function ChooseBanner(mode: string, hasFile: bool, typed: string): (r: BannerSource)
    ensures r == FromUpload <==> mode == "upload" && hasFile
    ensures r.Typed? <==> mode == "url"
    ensures r.Typed? ==> r.url == typed
    ensures r == NoBanner <==> mode != "url" && !(mode == "upload" && hasFile)
  {
    if mode == "upload" && hasFile then FromUpload
    else if mode == "url" then Typed(typed)
    else NoBanner
  }

  /** `finalBannerUrl`: the uploaded file's public URL, the typed URL or
      ''; `None` when the upload throws. */
  function Banner(mode: string, hasFile: bool, typed: string, upload: Result<string, string>): (r: Option<string>)
    ensures r.None? <==> ChooseBanner(mode, hasFile, typed) == FromUpload && upload.Failure?
    ensures ChooseBanner(mode, hasFile, typed) == FromUpload && upload.Success? ==> r == Some(upload.value)
    ensures ChooseBanner(mode, hasFile, typed).Typed? ==> r == Some(typed)
    ensures ChooseBanner(mode, hasFile, typed) == NoBanner ==> r == Some("")
  {
    match ChooseBanner(mode, hasFile, typed)
    case FromUpload => if upload.Success? then Some(upload.value) else None
    case Typed(url) => Some(url)
    case NoBanner => Some("")
  }

  const DateKeys: set<string> := {"event_date", "event_end_date", "registration_start", "registration_end"}

  /** `eventData`: the form, the banner URL, no form fields, and the four
      dates converted; `None` when a conversion throws. */
  function EventPayload(form: map<string, Value>, bannerUrl: string, iso: string -> Option<string>): (r: Option<map<string, Value>>)
    ensures r.None? <==> exists key | key in DateKeys :: ToIsoString(Get(form, key), iso).None?
    ensures r.Some? ==> r.value.Keys == form.Keys + DateKeys + {"banner_url", "form_fields"}
    ensures r.Some? ==> r.value["form_fields"] == Arr([]) && r.value["banner_url"] == Str(bannerUrl)
    ensures r.Some? ==> forall key | key in DateKeys :: Some(r.value[key]) == ToIsoString(Get(form, key), iso)
    ensures r.Some? ==> forall key | key in form && key !in DateKeys && key != "banner_url" && key != "form_fields" ::
      r.value[key] == form[key]
  {
    var start := ToIsoString(Get(form, "event_date"), iso);
    var end := ToIsoString(Get(form, "event_end_date"), iso);
    var regStart := ToIsoString(Get(form, "registration_start"), iso);
    var regEnd := ToIsoString(Get(form, "registration_end"), iso);
    if start.None? || end.None? || regStart.None? || regEnd.None? then None
    else
      Some(form["banner_url" := Str(bannerUrl)]["form_fields" := Arr([])]
        ["event_date" := start.value]["event_end_date" := end.value]
        ["registration_start" := regStart.value]["registration_end" := regEnd.value])
  }

  /** The JSON answer of `POST /api/events`. */
  datatype Reply = Reply(success: bool, eventId: string, error: Value)

  /** What a submission does: the request body it posts, the alert it
      shows and the route it pushes. */
  datatype Submission = Submission(request: Option<map<string, Value>>, alert: Option<string>, route: Option<string>)

  const AuthError := "Authentication error. Please log in again."
  const GenericError := "An error occurred"

  /** `handleSubmit`. `upload` is the public URL of the uploaded banner or
      the upload's failure; `reply` the server's answer or the failure of
      the request; a failure anywhere after the checks alerts 'An error
      occurred'. */
  function HandleSubmit(
    form: map<string, Value>,
    parse: string -> Option<int>,
    hasSession: bool,
    mode: string,
    hasFile: bool,
    typed: string,
    upload: Result<string, string>,
    iso: string -> Option<string>,
    reply: Result<Reply, string>)
    : (r: Submission)
    ensures DateOrderError(form, parse).Some? ==> r == Submission(None, DateOrderError(form, parse), None)
    ensures DateOrderError(form, parse).None? && !hasSession ==> r == Submission(None, Some(AuthError), Some("/admin/login"))
    ensures r.request.Some? ==> DateOrderError(form, parse).None? && hasSession
    ensures r.request.Some? ==> Get(r.request.value, "form_fields") == Arr([])
    ensures r.request.Some? ==> forall key | key in DateKeys :: Some(Get(r.request.value, key)) == ToIsoString(Get(form, key), iso)
    ensures DateOrderError(form, parse).None? && hasSession && ChooseBanner(mode, hasFile, typed) == FromUpload && upload.Failure? ==>
      r == Submission(None, Some(GenericError), None)
    ensures r.request.Some? && ChooseBanner(mode, hasFile, typed).Typed? ==> Get(r.request.value, "banner_url") == Str(typed)
    ensures r.request.Some? && ChooseBanner(mode, hasFile, typed) == NoBanner ==> Get(r.request.value, "banner_url") == Str("")
    ensures r.request.Some? && ChooseBanner(mode, hasFile, typed) == FromUpload ==>
      upload.Success? && Get(r.request.value, "banner_url") == Str(upload.value)
    ensures r.route.Some? && r.request.Some? ==>
      reply.Success? && reply.value.success && r.route.value == "/admin/events/" + reply.value.eventId + "/form-builder"
    ensures r.request.Some? && reply.Success? && !reply.value.success ==>
      r.alert == Some("Failed to create event: " + ToString(reply.value.error))
    ensures r.request.Some? && reply.Failure? ==> r.alert == Some(GenericError)
    ensures DateOrderError(form, parse).None? && hasSession && Banner(mode, hasFile, typed, upload).None? ==>
      r == Submission(None, Some(GenericError), None)
    ensures DateOrderError(form, parse).None? && hasSession && Banner(mode, hasFile, typed, upload).Some? ==>
      r.request == EventPayload(form, Banner(mode, hasFile, typed, upload).value, iso)
    ensures r.request.None? && DateOrderError(form, parse).None? && hasSession ==>
      r == Submission(None, Some(GenericError), None)
    ensures r.request.Some? && reply.Success? && reply.value.success ==>
      r.route == Some("/admin/events/" + reply.value.eventId + "/form-builder") && r.alert.None?
    ensures r.request.Some? && !(reply.Success? && reply.value.success) ==> r.route.None?
  {
    var dateError := DateOrderError(form, parse);
    if dateError.Some? then Submission(None, dateError, None)
    else if !hasSession then Submission(None, Some(AuthError), Some("/admin/login"))
    else
      var banner := Banner(mode, hasFile, typed, upload);
      if banner.None? then Submission(None, Some(GenericError), None)
      else
        match EventPayload(form, banner.value, iso)
        case None => Submission(None, Some(GenericError), None)
        case Some(payload) =>
          match reply
          case Failure(_) => Submission(Some(payload), Some(GenericError), None)
          case Success(answer) =>
            if answer.success then Submission(Some(payload), None, Some("/admin/events/" + answer.eventId + "/form-builder"))
            else Submission(Some(payload), Some("Failed to create event: " + ToString(answer.error)), None)
  }
}
