/** The registration review page under /auth: its initial filter, the
    status label and badge of a card, the card footer, and how the details
    dialog shows a registration's responses. Its list filter is the one of
    the admin registrations page, `AdminRegistrations.ByStatus`. */
module AuthReview {
  import opened Wrappers
  import opened JsString
  import opened JsValue
  import opened Records

  /** `searchParams.get('filter') || 'pending'`. */
  function InitialFilter(param: Option<string>): (r: string)
    ensures r != ""
    ensures param.Some? && param.value != "" ==> r == param.value
    ensures param.None? || param.value == "" ==> r == "pending"
  {
    if param.Some? && param.value != "" then param.value else "pending"
  }

  /** `status.charAt(0).toUpperCase() + status.slice(1)`. */
  function StatusLabel(status: string): (r: string)
    ensures |r| == |status|
    ensures status != "" ==> r[0] == UpperChar(status[0]) && r[1..] == status[1..]
    ensures status != "" ==> !('a' <= r[0] <= 'z')
    ensures status != "" && !('a' <= status[0] <= 'z') ==> r == status
  {
    if status == "" then "" else [UpperChar(status[0])] + status[1..]
  }

  /** Labelling a label again changes nothing. */
  lemma StatusLabelIdempotent(status: string)
    ensures StatusLabel(StatusLabel(status)) == StatusLabel(status)
  {
  }

  datatype BadgeColor = Orange | Green | Red

  function Badge(status: string): (r: BadgeColor)
    ensures r == Orange <==> status == "pending"
    ensures r == Green <==> status == "approved"
    ensures r == Red <==> status != "pending" && status != "approved"
  {
    if status == "pending" then Orange else if status == "approved" then Green else Red
  }

  /** Below a card: the approve and reject buttons, or the review verdict
      with its date (`None` prints 'Unknown date'). */
  datatype CardFooter = ReviewActions | ReviewedOn(verdict: string, date: Option<int>)

  function Footer(status: string, reviewedAt: Option<int>): (r: CardFooter)
    ensures r.ReviewActions? <==> status == "pending"
    ensures r.ReviewedOn? ==> r.date == reviewedAt
    ensures r.ReviewedOn? ==> (r.verdict == "Approved" <==> status == "approved")
    ensures r.ReviewedOn? ==> (r.verdict == "Rejected" <==> status != "approved")
  {
    if status == "pending" then ReviewActions
    else ReviewedOn(if status == "approved" then "Approved" else "Rejected", reviewedAt)
  }

  /** A response is shown as a link when its field has type 'url' or the
      value is a string with an http or https scheme. */
  function IsUrl(fieldType: string, v: Value): (r: bool)
    ensures fieldType == "url" ==> r
    ensures fieldType != "url" ==>
      (r <==> v.Str? && ((|v.s| >= 7 && v.s[..7] == "http://") || (|v.s| >= 8 && v.s[..8] == "https://")))
  {
    fieldType == "url" || (v.Str? && (StartsWith(v.s, "http://") || StartsWith(v.s, "https://")))
  }

  /** The text of a response that is not a link. It is never blank except
      for an array whose elements all convert to the empty string. */
  function DisplayValue(v: Value): (r: string)
    ensures v.Bool? ==> (r == "Yes" <==> v.b) && (r == "No" <==> !v.b)
    ensures v.Null? || v.Undefined? || v == Str("") ==> r == "N/A"
    ensures v.Num? || v.Arr? || (v.Str? && v.s != "") ==> r == ToString(v)
    ensures r == "" <==> v.Arr? && ToString(v) == ""
  {
    match v
    case Bool(b) => if b then "Yes" else "No"
    case _ =>
      if v != Null && v != Undefined && v != Str("") then ToString(v) else "N/A"
  }

  /** What React renders for a value placed directly in markup: strings
      and numbers as text, booleans, `null` and `undefined` as nothing,
      arrays as their elements one after another. */
  function ReactText(v: Value): string
    decreases v, 1
  {
    match v
    case Str(s) => s
    case Num(n) => IntToString(n)
    case Arr(items) => ReactConcat(v, items)
    case _ => ""
  }

  function ReactConcat(whole: Value, items: seq<Value>): string
    requires forall i :: 0 <= i < |items| ==> items[i] < whole
    decreases whole, 0, |items|
  {
    if items == [] then "" else ReactText(items[0]) + ReactConcat(whole, items[1..])
  }

  /** One shown response: a link with its target and text, or plain text. */
  datatype Shown = Link(href: Value, text: string) | Text(text: string)

  /** `{value || 'N/A'}` inside the link, the display text otherwise. */
  function FieldShown(f: Field, v: Value): (r: Shown)
    ensures r.Link? <==> IsUrl(f.fieldType, v)
    ensures r.Link? ==> r.href == v
    ensures r.Link? && v.Str? ==> r.text == (if v.s != "" then v.s else "N/A")
    ensures r.Link? && !Truthy(v) ==> r.text == "N/A"
    ensures r.Text? ==> r.text == DisplayValue(v)
  {
    if IsUrl(f.fieldType, v) then Link(v, if Truthy(v) then ReactText(v) else "N/A")
    else Text(DisplayValue(v))
  }

  /** `String(value) || 'N/A'`, used when the registration carries no form
      fields; unlike `DisplayValue`, `null` prints as 'null' here. */
  function FallbackText(v: Value): (r: string)
    ensures r != ""
    ensures ToString(v) != "" ==> r == ToString(v)
    ensures ToString(v) == "" ==> r == "N/A"
  {
    var s := ToString(v);
    if s != "" then s else "N/A"
  }

  datatype Row = Row(caption: string, shown: Shown)

  /** The body of the details dialog: one row per form field, captioned
      with its label; without form fields, one entry per response key.
      Looking up a response of a registration without a responses object
      throws, which `Crash` stands for. */
  datatype Dialog = FieldRows(rows: seq<Row>) | EntryRows(entries: map<string, string>) | Crash

  function Details(formFields: Option<seq<Field>>, responses: Option<map<string, Value>>): (r: Dialog)
    ensures r.FieldRows? <==> formFields.Some? && |formFields.value| > 0 && responses.Some?
    ensures r.Crash? <==> formFields.Some? && |formFields.value| > 0 && responses.None?
    ensures r.FieldRows? ==> |r.rows| == |formFields.value|
    ensures r.FieldRows? ==> forall i :: 0 <= i < |r.rows| ==>
      r.rows[i] == Row(formFields.value[i].labelText,
                       FieldShown(formFields.value[i], Get(responses.value, formFields.value[i].id)))
    ensures r.EntryRows? && responses.None? ==> r.entries == map[]
    ensures r.EntryRows? && responses.Some? ==> r.entries.Keys == responses.value.Keys
    ensures r.EntryRows? && responses.Some? ==> forall k | k in r.entries :: r.entries[k] == FallbackText(responses.value[k])
  {
    if formFields.Some? && |formFields.value| > 0 then
      if responses.None? then Crash
      else
        var fields := formFields.value;
        FieldRows(seq(|fields|, i requires 0 <= i < |fields| =>
          Row(fields[i].labelText, FieldShown(fields[i], Get(responses.value, fields[i].id)))))
    else
      var m := if responses.Some? then responses.value else map[];
      EntryRows(map k | k in m :: FallbackText(m[k]))
  }

  /** 'No responses found for this registration.' */
  function NoResponsesNote(formFields: Option<seq<Field>>, responses: Option<map<string, Value>>): (r: bool)
    ensures r ==> formFields.None? || formFields.value == []
    ensures r ==> responses.None? || responses.value == map[]
  {
    (formFields.None? || |formFields.value| == 0) && (responses.None? || |responses.value| == 0)
  }

  /** The note shows exactly when the dialog has nothing else to show. */
  lemma NoteIffDialogEmpty(formFields: Option<seq<Field>>, responses: Option<map<string, Value>>)
    ensures NoResponsesNote(formFields, responses) <==> Details(formFields, responses) == EntryRows(map[])
  {
    var d := Details(formFields, responses);
    if d == EntryRows(map[]) && responses.Some? {
      assert responses.value.Keys == {};
      assert responses.value == map[];
    }
  }
}
