/** `GradientText`: the trimmed text with its last character set apart. */
module GradientText {
  import opened JsString
  import opened JsValue

  /** The children as given, or the trimmed text split before its last
      character. */
  datatype Rendered = Unchanged(children: Value) | Split(rest: string, last: string)

  function Render(children: Value): (r: Rendered)
    ensures !Truthy(children) || !children.Str? ==> r == Unchanged(children)
    ensures Truthy(children) && children.Str? ==> r.Split?
    ensures r.Split? ==> r.rest + r.last == Trim(children.s)
    ensures r.Split? ==> (|r.last| == 1 <==> Trim(children.s) != "")
    ensures r.Split? ==> (|r.last| == 0 <==> Trim(children.s) == "")
    ensures r.Split? && IsBlank(children.s) ==> r.rest == "" && r.last == ""
    ensures r.Split? && r.last != "" ==> !IsWhitespace(r.last[0])
  {
    if !Truthy(children) || !children.Str? then Unchanged(children)
    else
      var text := Trim(children.s);
      if text == "" then Split("", "")
      else
        assert text[..|text| - 1] + text[|text| - 1..] == text;
        Split(text[..|text| - 1], text[|text| - 1..])
  }
}
