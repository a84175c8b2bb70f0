/** The form builder of an event's registration form: inserting, editing,
    removing and moving fields of an ordered list, the save-time filter that
    drops unlabelled fields, and the parse of a dropdown's comma-separated
    options. The list is React state that every change also writes to the
    browser's session storage. */
module FormBuilder {
  import opened Wrappers
  import opened JsString
  import opened Seqs
  import opened Records

  /** Where `splice(start, …)` starts in an array of length `len`: a
      negative start counts from the end, and the result is clamped to
      `[0, len]`. */
  function SpliceStart(start: int, len: nat): nat {
    if start < 0 then (if len + start < 0 then 0 else len + start)
    else if start > len then len
    else start
  }

  /** The array after `s.splice(start, deleteCount, ...items)`: at most
      `deleteCount` elements from the start position are replaced by
      `items`. */
  function Splice<T>(s: seq<T>, start: int, deleteCount: nat, items: seq<T>): seq<T> {
    var k := SpliceStart(start, |s|);
    var d := if deleteCount <= |s| - k then deleteCount else |s| - k;
    s[..k] + items + s[k + d..]
  }

  /** The field `addField` creates; `id` stands for the fresh `uuidv4()`. */
  function NewField(id: string): Field {
    Field(id, "text", "", false, [], None)
  }

  /** `addField(index)`: a new field spliced in at `index + 1`. */
  function Inserted(fields: seq<Field>, index: int, id: string): (r: seq<Field>)
    ensures |r| == |fields| + 1
    ensures multiset(r) == multiset(fields) + multiset{NewField(id)}
    ensures -1 <= index < |fields| ==>
      r[index + 1] == NewField(id) &&
      r[..index + 1] == fields[..index + 1] &&
      r[index + 2..] == fields[index + 1..]
  {
    var k := SpliceStart(index + 1, |fields|);
    assert fields == fields[..k] + fields[k..];
    Splice(fields, index + 1, 0, [NewField(id)])
  }

  /** Inserting never reorders the fields already there. */
  lemma InsertedKeepsOrder(fields: seq<Field>, index: int, id: string)
    ensures SubseqOf(fields, Inserted(fields, index, id))
  {
    var k := SpliceStart(index + 1, |fields|);
    assert fields == fields[..k] + fields[k..];
    SubseqInsert(fields[..k], NewField(id), fields[k..]);
  }

  lemma {:induction false} SubseqInsert<T>(a: seq<T>, x: T, c: seq<T>)
    ensures SubseqOf(a + c, a + [x] + c)
  {
    if a == [] {
      SubseqReflexive(c);
      assert a + c == c;
      assert (a + [x] + c)[1..] == c;
    } else {
      SubseqInsert(a[1..], x, c);
      assert (a + c)[1..] == a[1..] + c;
      assert (a + [x] + c)[1..] == a[1..] + [x] + c;
    }
  }

  /** A field just added is not saved until it gets a label. */
  lemma NewFieldNotSaved(fields: seq<Field>, index: int, id: string)
    requires -1 <= index < |fields|
    ensures Inserted(fields, index, id)[index + 1] !in ValidFields(Inserted(fields, index, id))
  {
  }

  /** The properties an edit of the field card passes to `updateField`;
      `None` is a property the edit does not mention. */
  datatype FieldUpdate = FieldUpdate(
    fieldType: Option<string>,
    labelText: Option<string>,
    required: Option<bool>,
    options: Option<seq<string>>,
    placeholder: Option<string>)

  const NoUpdate := FieldUpdate(None, None, None, None, None)

  /** `{ ...field, ...updates }`: the properties of `u` win, the others are
      those of `f`, and the id is never touched. */
  function Merge(f: Field, u: FieldUpdate): (r: Field)
    ensures r.id == f.id
    ensures r.fieldType == (if u.fieldType.Some? then u.fieldType.value else f.fieldType)
    ensures r.labelText == (if u.labelText.Some? then u.labelText.value else f.labelText)
    ensures r.required == (if u.required.Some? then u.required.value else f.required)
    ensures r.options == (if u.options.Some? then u.options.value else f.options)
    ensures r.placeholder == (if u.placeholder.Some? then u.placeholder else f.placeholder)
  {
    f.(fieldType := if u.fieldType.Some? then u.fieldType.value else f.fieldType,
       labelText := if u.labelText.Some? then u.labelText.value else f.labelText,
       required := if u.required.Some? then u.required.value else f.required,
       options := if u.options.Some? then u.options.value else f.options,
       placeholder := if u.placeholder.Some? then u.placeholder else f.placeholder)
  }

  /** An update that mentions nothing leaves the field as it is, and
      applying the same update twice is applying it once. */
  lemma MergeLaws(f: Field, u: FieldUpdate)
    ensures Merge(f, NoUpdate) == f
    ensures Merge(Merge(f, u), u) == Merge(f, u)
  {
  }

  /** `updateField(index, updates)`: only position `index` changes. */
  function Updated(fields: seq<Field>, index: nat, u: FieldUpdate): (r: seq<Field>)
    requires index < |fields|
    ensures |r| == |fields|
    ensures r[index] == Merge(fields[index], u)
    ensures forall j :: 0 <= j < |fields| && j != index ==> r[j] == fields[j]
  {
    fields[index := Merge(fields[index], u)]
  }

  /** `fields.filter((_, i) => i !== index)`: the element at `index` goes,
      the others stay in order; an index outside the list removes nothing. */
  function Removed<T>(s: seq<T>, index: int): (r: seq<T>)
    ensures 0 <= index < |s| ==> r == s[..index] + s[index + 1..]
    ensures !(0 <= index < |s|) ==> r == s
    decreases |s|
  {
    if s == [] then []
    else
      var rest := Removed(s[1..], index - 1);
      if index == 0 then rest
      else
        assert 0 < index < |s| ==> s[..index] == [s[0]] + s[1..][..index - 1];
        assert s == [s[0]] + s[1..];
        [s[0]] + rest
  }

  /** Removing takes away exactly one occurrence of the removed field. */
  lemma RemovedMultiset<T>(s: seq<T>, index: int)
    requires 0 <= index < |s|
    ensures multiset(Removed(s, index)) + multiset{s[index]} == multiset(s)
  {
    var a, b := s[..index], s[index + 1..];
    var r := Removed(s, index);
    assert r == a + b;
    assert s == a + [s[index]] + b;
    MultisetOfInsert(a, s[index], b);
  }

  lemma MultisetOfInsert<T>(a: seq<T>, x: T, b: seq<T>)
    ensures multiset(a + [x] + b) == multiset(a + b) + multiset{x}
  {
    assert multiset(a + [x] + b) == multiset(a) + multiset{x} + multiset(b);
  }

  /** Removing keeps the others in their order. */
  lemma RemovedKeepsOrder<T>(s: seq<T>, index: int)
    requires 0 <= index < |s|
    ensures SubseqOf(Removed(s, index), s)
  {
    var a, b := s[..index], s[index + 1..];
    assert s == a + [s[index]] + b;
    SubseqInsert(a, s[index], b);
  }

  datatype Direction = Up | Down

  /** The list after moving the field at `index` one place up or down: a
      swap with its neighbour, and nothing at the ends of the list. */
  function Moved(s: seq<Field>, index: nat, direction: Direction): (r: seq<Field>)
    requires index < |s|
    ensures |r| == |s|
    ensures (direction == Up && index == 0) || (direction == Down && index == |s| - 1) ==> r == s
  {
    match direction
    case Up => if index == 0 then s else s[index - 1 := s[index]][index := s[index - 1]]
    case Down => if index == |s| - 1 then s else s[index := s[index + 1]][index + 1 := s[index]]
  }

  /** A move swaps the field with its neighbour in that direction and
      leaves every other position alone. */
  lemma MovedSwaps(s: seq<Field>, index: nat, direction: Direction)
    requires index < |s|
    ensures direction == Up && index > 0 ==>
      var r := Moved(s, index, direction);
      r[index - 1] == s[index] && r[index] == s[index - 1] &&
      forall j :: 0 <= j < |s| && j != index - 1 && j != index ==> r[j] == s[j]
    ensures direction == Down && index < |s| - 1 ==>
      var r := Moved(s, index, direction);
      r[index] == s[index + 1] && r[index + 1] == s[index] &&
      forall j :: 0 <= j < |s| && j != index && j != index + 1 ==> r[j] == s[j]
  {
  }

  /** A move only reorders the fields. */
  lemma MovedPermutes(s: seq<Field>, index: nat, direction: Direction)
    requires index < |s|
    ensures multiset(Moved(s, index, direction)) == multiset(s)
  {
    if direction == Up && index > 0 {
      SwapMultiset(s, index - 1, index);
    } else if direction == Down && index < |s| - 1 {
      SwapMultiset(s, index, index + 1);
    }
  }

  lemma SwapMultiset<T>(s: seq<T>, i: nat, j: nat)
    requires i < j < |s|
    ensures multiset(s[i := s[j]][j := s[i]]) == multiset(s)
  {
    var t := s[i := s[j]];
    assert multiset(t) == multiset(s) - multiset{s[i]} + multiset{s[j]};
    assert t[j] == s[j];
  }

  /** Moving a field up and then back down restores the list. */
  lemma MoveUpThenDown(s: seq<Field>, index: nat)
    requires 0 < index < |s|
    ensures Moved(Moved(s, index, Up), index - 1, Down) == s
  {
    var m := Moved(s, index, Up);
    MovedSwaps(s, index, Up);
    MovedSwaps(m, index - 1, Down);
    var t := Moved(m, index - 1, Down);
    assert forall j :: 0 <= j < |s| ==> t[j] == s[j];
  }

  /** Moving a field down and then back up restores the list. */
  lemma MoveDownThenUp(s: seq<Field>, index: nat)
    requires index < |s| - 1
    ensures Moved(Moved(s, index, Down), index + 1, Up) == s
  {
    var m := Moved(s, index, Down);
    MovedSwaps(s, index, Down);
    MovedSwaps(m, index + 1, Up);
    var t := Moved(m, index + 1, Up);
    assert forall j :: 0 <= j < |s| ==> t[j] == s[j];
  }

  /** `moveField(index, 'up')` past the guard: `splice(index, 1)` and then
      `splice(index - 1, 0, item)` swap the field with the one above. */
  lemma SpliceMoveUp(s: seq<Field>, index: nat)
    requires 0 < index < |s|
    ensures Splice(Splice(s, index, 1, []), index - 1, 0, [s[index]]) == Moved(s, index, Up)
  {
    var t := Splice(s, index, 1, []);
    assert t == s[..index] + s[index + 1..];
    var u := Splice(t, index - 1, 0, [s[index]]);
    assert u == t[..index - 1] + [s[index]] + t[index - 1..];
    var m := Moved(s, index, Up);
    MovedSwaps(s, index, Up);
    assert |u| == |m|;
    forall j | 0 <= j < |u|
      ensures u[j] == m[j]
    {
      if j < index - 1 {
        assert u[j] == t[j] == s[j];
      } else if j == index - 1 {
      } else {
        assert u[j] == t[j - 1];
      }
    }
  }

  /** `moveField(index, 'down')` past the guard: `splice(index, 1)` and
      then `splice(index + 1, 0, item)` swap the field with the one below. */
  lemma SpliceMoveDown(s: seq<Field>, index: nat)
    requires index < |s| - 1
    ensures Splice(Splice(s, index, 1, []), index + 1, 0, [s[index]]) == Moved(s, index, Down)
  {
    var t := Splice(s, index, 1, []);
    assert t == s[..index] + s[index + 1..];
    var u := Splice(t, index + 1, 0, [s[index]]);
    assert u == t[..index + 1] + [s[index]] + t[index + 1..];
    var m := Moved(s, index, Down);
    MovedSwaps(s, index, Down);
    assert |u| == |m|;
    forall j | 0 <= j < |u|
      ensures u[j] == m[j]
    {
      if j < index {
        assert u[j] == t[j] == s[j];
      } else if j == index {
        assert u[j] == t[index] == s[index + 1];
      } else if j == index + 1 {
        assert u[j] == s[index];
      } else {
        assert u[j] == t[j - 1] == s[j];
      }
    }
  }

  /** The test `f.label.trim() !== ''` of `handleSave`. */
  function HasLabel(): Field -> bool {
    (f: Field) => Trim(f.labelText) != ""
  }

  /** The fields `handleSave` sends: those with a non-blank label. */
  function ValidFields(fields: seq<Field>): (r: seq<Field>)
    ensures forall f | f in r :: f in fields && !IsBlank(f.labelText)
    ensures forall f | f in fields && !IsBlank(f.labelText) :: f in r
    ensures SubseqOf(r, fields)
    ensures forall f :: multiset(r)[f] == if !IsBlank(f.labelText) then multiset(fields)[f] else 0
  {
    FilterCounts(fields, HasLabel());
    FilterSubseq(fields, HasLabel());
    FilterMembers(fields, HasLabel());
    Filter(fields, HasLabel())
  }

  /** What `handleSave` passes to `onSave`, or `None` when it refuses: the
      list has fields and every label is blank. An empty list is saved. */
  function SaveRequest(fields: seq<Field>): (r: Option<seq<Field>>)
    ensures r.None? <==> fields != [] && forall f | f in fields :: IsBlank(f.labelText)
    ensures r.Some? ==> r.value == ValidFields(fields)
    ensures r == Some([]) <==> fields == []
  {
    var valid := ValidFields(fields);
    if valid == [] && fields != [] then None else Some(valid)
  }

  /** The test `Boolean(s)` that drops empty options. */
  function NonEmpty(): string -> bool {
    (s: string) => s != ""
  }

  /** `text.split(',').map(s => s.trim()).filter(Boolean)`: the options of
      a dropdown typed as comma-separated text. */
  function ParseOptions(text: string): (r: seq<string>)
    ensures forall i :: 0 <= i < |r| ==> r[i] != "" && IsTrimmed(r[i]) && ',' !in r[i]
    ensures SubseqOf(r, TrimAll(Split(text, ',')))
    ensures forall x :: multiset(r)[x] == if x != "" then multiset(TrimAll(Split(text, ',')))[x] else 0
    ensures forall i :: 0 <= i < |Split(text, ',')| && !IsBlank(Split(text, ',')[i]) ==> Trim(Split(text, ',')[i]) in r
  {
    var pieces := Split(text, ',');
    SplitPieces(text, ',');
    FilterSubseq(TrimAll(pieces), NonEmpty());
    FilterCounts(TrimAll(pieces), NonEmpty());
    OptionsWellFormed(pieces);
    OptionsComplete(pieces);
    Filter(TrimAll(pieces), NonEmpty())
  }

  /** Every trimmed, non-empty piece of comma-free pieces is a well-formed
      option. */
  lemma OptionsWellFormed(pieces: seq<string>)
    requires forall i :: 0 <= i < |pieces| ==> ',' !in pieces[i]
    ensures forall i :: 0 <= i < |Filter(TrimAll(pieces), NonEmpty())| ==>
      var o := Filter(TrimAll(pieces), NonEmpty())[i];
      o != "" && IsTrimmed(o) && ',' !in o
  {
    var trimmed := TrimAll(pieces);
    var r := Filter(trimmed, NonEmpty());
    FilterMembers(trimmed, NonEmpty());
    forall i | 0 <= i < |r|
      ensures r[i] != "" && IsTrimmed(r[i]) && ',' !in r[i]
    {
      assert r[i] in r && NonEmpty()(r[i]);
      var j :| 0 <= j < |trimmed| && trimmed[j] == r[i];
      assert r[i] == Trim(pieces[j]) && ',' !in pieces[j];
    }
  }

  /** No piece with a non-blank text is lost. */
  lemma OptionsComplete(pieces: seq<string>)
    ensures forall i :: 0 <= i < |pieces| && !IsBlank(pieces[i]) ==> Trim(pieces[i]) in Filter(TrimAll(pieces), NonEmpty())
  {
    var trimmed := TrimAll(pieces);
    FilterMembers(trimmed, NonEmpty());
    forall i | 0 <= i < |pieces| && !IsBlank(pieces[i])
      ensures Trim(pieces[i]) in Filter(trimmed, NonEmpty())
    {
      assert trimmed[i] in trimmed;
    }
  }

  /** `pieces.map(s => s.trim())`. */
  function TrimAll(pieces: seq<string>): (r: seq<string>)
    ensures |r| == |pieces|
    ensures forall i :: 0 <= i < |r| ==> r[i] == Trim(pieces[i])
  {
    seq(|pieces|, i requires 0 <= i < |pieces| => Trim(pieces[i]))
  }

  /** `field.options?.join(', ') || ''`: the text the options input shows. */
  function OptionsText(options: seq<string>): string {
    Join(options, ", ")
  }

  /** Options as the parser leaves them: non-empty, without surrounding
      whitespace and without commas. */
  predicate WellFormedOptions(options: seq<string>) {
    forall i :: 0 <= i < |options| ==> options[i] != "" && IsTrimmed(options[i]) && ',' !in options[i]
  }

  function Spaced(options: seq<string>): (r: seq<string>)
    ensures |r| == |options|
  {
    seq(|options|, i requires 0 <= i < |options| => " " + options[i])
  }

  lemma {:induction false} SpaceBeforeJoin(t: seq<string>)
    requires |t| >= 1
    ensures " " + Join(t, ", ") == Join(Spaced(t), ",")
  {
    if |t| > 1 {
      SpaceBeforeJoin(t[1..]);
      assert Spaced(t)[1..] == Spaced(t[1..]);
      JoinCons(Spaced(t)[0], Spaced(t)[1..], ",");
      assert Spaced(t) == [Spaced(t)[0]] + Spaced(t)[1..];
    }
  }

  /** The shown text splits at ',' into the first option and the others
      each with the space of the ', ' separator in front. */
  lemma SplitOptionsText(options: seq<string>)
    requires |options| >= 1
    requires WellFormedOptions(options)
    ensures Split(OptionsText(options), ',') == [options[0]] + Spaced(options[1..])
  {
    var parts := [options[0]] + Spaced(options[1..]);
    if |options| > 1 {
      SpaceBeforeJoin(options[1..]);
      JoinCons(options[0], Spaced(options[1..]), ",");
    }
    assert Join(parts, ",") == OptionsText(options);
    forall i | 0 <= i < |parts|
      ensures ',' !in parts[i]
    {
      if i > 0 {
        assert parts[i] == " " + options[i];
      }
    }
    SplitOfJoin(parts, ',');
  }

  /** Parsing the text the input shows gives the options back. */
  lemma ParseOptionsOfText(options: seq<string>)
    requires WellFormedOptions(options)
    ensures ParseOptions(OptionsText(options)) == options
  {
    if options == [] {
      assert Split("", ',') == [""];
      assert TrimAll([""]) == [""];
    } else {
      SplitOptionsText(options);
      TrimSpacedOptions(options);
      FilterKeepsAll(options, NonEmpty());
    }
  }

  /** Trimming the pieces of the shown text removes the spaces of the
      separators again. */
  lemma TrimSpacedOptions(options: seq<string>)
    requires |options| >= 1
    requires WellFormedOptions(options)
    ensures TrimAll([options[0]] + Spaced(options[1..])) == options
  {
    var pieces := [options[0]] + Spaced(options[1..]);
    var trimmed := TrimAll(pieces);
    forall i | 0 <= i < |pieces|
      ensures trimmed[i] == options[i]
    {
      if i > 0 {
        assert pieces[i] == " " + options[i];
        TrimAfterSpace(options[i]);
      } else {
        assert pieces[0] == options[0];
      }
    }
  }

  /** Showing parsed options and parsing the shown text again changes
      nothing. */
  lemma ParseOptionsStable(text: string)
    ensures ParseOptions(OptionsText(ParseOptions(text))) == ParseOptions(text)
  {
    ParseOptionsOfText(ParseOptions(text));
  }

  /** How `handleSave` ends: refused with an alert before `onSave`, saved,
      or failed with an alert after it. */
  datatype SaveOutcome = Refused | Saved(sent: seq<Field>) | SaveFailed(sent: seq<Field>)

  /** The component's state: the field list, the saving flag, and the
      draft the effect keeps in session storage under
      `formBuilder-{eventId}`. */
  class Builder {
    var fields: seq<Field>
    var isSaving: bool
    var draft: Option<seq<Field>>

    /** The list starts from a draft left in session storage, otherwise
        from `initialFields`; the effect then stores it. */
    constructor(saved: Option<seq<Field>>, initialFields: seq<Field>)
      ensures fields == (if saved.Some? then saved.value else initialFields)
      ensures !isSaving
      ensures draft == Some(fields)
    {
      fields := if saved.Some? then saved.value else initialFields;
      isSaving := false;
      draft := Some(fields);
    }

    /** `setFields` followed by the effect that stores the new list. */
    method SetFields(newFields: seq<Field>)
      modifies this
      ensures fields == newFields && draft == Some(newFields)
      ensures isSaving == old(isSaving)
    {
      fields := newFields;
      draft := Some(newFields);
    }

    method AddField(index: int, id: string)
      modifies this
      ensures fields == Inserted(old(fields), index, id)
      ensures draft == Some(fields) && isSaving == old(isSaving)
    {
      var newFields := fields;
      newFields := Splice(newFields, index + 1, 0, [NewField(id)]);
      SetFields(newFields);
    }

    method UpdateField(index: nat, u: FieldUpdate)
      requires index < |fields|
      modifies this
      ensures fields == Updated(old(fields), index, u)
      ensures draft == Some(fields) && isSaving == old(isSaving)
    {
      var newFields := fields;
      newFields := newFields[index := Merge(newFields[index], u)];
      SetFields(newFields);
    }

    method RemoveField(index: int)
      modifies this
      ensures fields == Removed(old(fields), index)
      ensures draft == Some(fields) && isSaving == old(isSaving)
    {
      SetFields(Removed(fields, index));
    }

    /** The guarded moves return before `setFields`, so neither the list nor
        the draft changes. */
    method MoveField(index: nat, direction: Direction)
      requires index < |fields|
      modifies this
      ensures fields == Moved(old(fields), index, direction)
      ensures isSaving == old(isSaving)
      ensures (direction == Up && index == 0) || (direction == Down && index == |old(fields)| - 1) ==>
        draft == old(draft)
      ensures !((direction == Up && index == 0) || (direction == Down && index == |old(fields)| - 1)) ==>
        draft == Some(fields)
    {
      if direction == Up && index == 0 {
        return;
      }
      if direction == Down && index == |fields| - 1 {
        return;
      }
      var newFields := fields;
      var item := newFields[index];
      if direction == Up {
        newFields := Splice(newFields, index, 1, []);
        newFields := Splice(newFields, index - 1, 0, [item]);
        SpliceMoveUp(fields, index);
      } else {
        newFields := Splice(newFields, index, 1, []);
        newFields := Splice(newFields, index + 1, 0, [item]);
        SpliceMoveDown(fields, index);
      }
      SetFields(newFields);
    }

    /** `handleSave`, with `saveSucceeds` telling whether `onSave` resolves.
        A refused save leaves everything as it was; otherwise the saving
        flag ends false again, and a successful save clears the draft. */
    method HandleSave(saveSucceeds: bool) returns (outcome: SaveOutcome)
      modifies this
      ensures outcome.Refused? <==> SaveRequest(old(fields)).None?
      ensures !outcome.Refused? ==> outcome.sent == SaveRequest(old(fields)).value
      ensures outcome.Saved? <==> SaveRequest(old(fields)).Some? && saveSucceeds
      ensures fields == old(fields)
      ensures outcome.Refused? ==> isSaving == old(isSaving) && draft == old(draft)
      ensures !outcome.Refused? ==> !isSaving
      ensures outcome.Saved? ==> draft.None?
      ensures outcome.SaveFailed? ==> draft == old(draft)
    {
      var validFields := ValidFields(fields);
      if |validFields| == 0 && |fields| > 0 {
        return Refused;
      }
      isSaving := true;
      if saveSucceeds {
        draft := None;
        outcome := Saved(validFields);
      } else {
        outcome := SaveFailed(validFields);
      }
      isSaving := false;
    }
  }
}
