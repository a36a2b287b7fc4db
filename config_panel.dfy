/**
 * The configuration panel's handlers: each builds a new configuration record
 * or a new mapping list from the current one and hands it to a setter, so
 * they are modelled as functions from the old value to the new one.
 */
module ConfigPanel {
  import opened Types

  // ------------------------------------------------------------------
  // Global configuration fields
  // ------------------------------------------------------------------

  /** The four inputs of the configuration form, by their `name` attribute. */
  datatype ConfigField = FilePattern | SheetName | IdCell | Prefix

  function ConfigGet(c: GlobalConfig, f: ConfigField): string
  {
    match f
    case FilePattern => c.filePattern
    case SheetName => c.sheetName
    case IdCell => c.idCell
    case Prefix => c.prefix
  }

  /** `handleConfigChange`: `{ ...config, [name]: value }`. */
  function HandleConfigChange(c: GlobalConfig, f: ConfigField, value: string): (r: GlobalConfig)
    ensures ConfigGet(r, f) == value
    ensures forall g: ConfigField | g != f :: ConfigGet(r, g) == ConfigGet(c, g)
  {
    match f
    case FilePattern => c.(filePattern := value)
    case SheetName => c.(sheetName := value)
    case IdCell => c.(idCell := value)
    case Prefix => c.(prefix := value)
  }

  /** Typing a field's current text back into it changes nothing; a later edit of the same field wins. */
  lemma ConfigChangeLaws(c: GlobalConfig, f: ConfigField, v: string, w: string)
    ensures HandleConfigChange(c, f, ConfigGet(c, f)) == c
    ensures HandleConfigChange(HandleConfigChange(c, f, v), f, w) == HandleConfigChange(c, f, w)
  {
    assert forall g: ConfigField :: ConfigGet(HandleConfigChange(c, f, ConfigGet(c, f)), g) == ConfigGet(c, g);
    assert ConfigGet(c, FilePattern) == c.filePattern && ConfigGet(c, SheetName) == c.sheetName;
    assert ConfigGet(c, IdCell) == c.idCell && ConfigGet(c, Prefix) == c.prefix;
  }

  // ------------------------------------------------------------------
  // Editing one mapping
  // ------------------------------------------------------------------

  datatype MappingField = Id | FieldName | SourceCell | MinReg | MaxReg | Format | ColIndex

  /** A field's value: the text fields hold strings, the numeric ones the result of `parseInt`. */
  datatype FieldValue = Str(s: string) | Int(i: int)

  /** One `(field, value)` pair as the table's inputs produce it, with the value of the field's type. */
  datatype MappingEdit =
    | SetId(s: string)
    | SetFieldName(s: string)
    | SetSourceCell(s: string)
    | SetMinReg(i: int)
    | SetMaxReg(i: int)
    | SetFormat(s: string)
    | SetColIndex(i: int)
  {
    function Field(): MappingField
    {
      match this
      case SetId(_) => Id
      case SetFieldName(_) => FieldName
      case SetSourceCell(_) => SourceCell
      case SetMinReg(_) => MinReg
      case SetMaxReg(_) => MaxReg
      case SetFormat(_) => Format
      case SetColIndex(_) => ColIndex
    }

    function Value(): FieldValue
    {
      if this.SetMinReg? || this.SetMaxReg? || this.SetColIndex? then Int(this.i) else Str(this.s)
    }
  }

  function MappingGet(m: FieldMapping, f: MappingField): FieldValue
  {
    match f
    case Id => Str(m.id)
    case FieldName => Str(m.fieldName)
    case SourceCell => Str(m.sourceCell)
    case MinReg => Int(m.minReg)
    case MaxReg => Int(m.maxReg)
    case Format => Str(m.format)
    case ColIndex => Int(m.colIndex)
  }

  /** `{ ...m, [field]: value }`. */
  function ApplyEdit(m: FieldMapping, e: MappingEdit): (r: FieldMapping)
    ensures MappingGet(r, e.Field()) == e.Value()
    ensures forall g: MappingField | g != e.Field() :: MappingGet(r, g) == MappingGet(m, g)
  {
    match e
    case SetId(s) => m.(id := s)
    case SetFieldName(s) => m.(fieldName := s)
    case SetSourceCell(s) => m.(sourceCell := s)
    case SetMinReg(i) => m.(minReg := i)
    case SetMaxReg(i) => m.(maxReg := i)
    case SetFormat(s) => m.(format := s)
    case SetColIndex(i) => m.(colIndex := i)
  }

  /**
   * `updateMapping(index, field, value)`: a copy of the list whose element
   * `index` has the one field replaced; the table only calls it with the
   * index of a row it displays.
   */
  function UpdateMapping(ms: seq<FieldMapping>, index: int, e: MappingEdit): (r: seq<FieldMapping>)
    requires 0 <= index < |ms|
    ensures |r| == |ms|
    ensures forall k | 0 <= k < |ms| && k != index :: r[k] == ms[k]
    ensures MappingGet(r[index], e.Field()) == e.Value()
    ensures forall g: MappingField | g != e.Field() :: MappingGet(r[index], g) == MappingGet(ms[index], g)
  {
    ms[index := ApplyEdit(ms[index], e)]
  }

  /** Two mappings that agree on every field are the same mapping. */
  lemma MappingFieldsDetermine(m: FieldMapping, n: FieldMapping)
    requires forall g: MappingField :: MappingGet(m, g) == MappingGet(n, g)
    ensures m == n
  {
    assert MappingGet(m, Id) == MappingGet(n, Id) && MappingGet(m, FieldName) == MappingGet(n, FieldName);
    assert MappingGet(m, SourceCell) == MappingGet(n, SourceCell) && MappingGet(m, MinReg) == MappingGet(n, MinReg);
    assert MappingGet(m, MaxReg) == MappingGet(n, MaxReg) && MappingGet(m, Format) == MappingGet(n, Format);
    assert MappingGet(m, ColIndex) == MappingGet(n, ColIndex);
  }

  /** Writing a field's current value back leaves the list as it was. */
  lemma UpdateWithCurrentValue(ms: seq<FieldMapping>, index: int, e: MappingEdit)
    requires 0 <= index < |ms| && e.Value() == MappingGet(ms[index], e.Field())
    ensures UpdateMapping(ms, index, e) == ms
  {
    var r := UpdateMapping(ms, index, e);
    MappingFieldsDetermine(r[index], ms[index]);
  }

  // ------------------------------------------------------------------
  // Removing a mapping
  // ------------------------------------------------------------------

  /** `mappings.filter((_, i) => i !== index)`, walking the list from the front. */
  function RemoveMapping(ms: seq<FieldMapping>, index: int): (r: seq<FieldMapping>)
    ensures 0 <= index < |ms| ==> |r| == |ms| - 1 && r == ms[..index] + ms[index + 1..]
    ensures !(0 <= index < |ms|) ==> r == ms
  {
    if ms == [] then []
    else if index == 0 then RemoveMapping(ms[1..], index - 1)
    else
      var tail := RemoveMapping(ms[1..], index - 1);
      assert 0 < index < |ms| ==> ms[..index] + ms[index + 1..] == [ms[0]] + (ms[1..][..index - 1] + ms[1..][index..]);
      [ms[0]] + tail
  }

  /** Removing an element that was just added gives back the list. */
  lemma RemoveLast(ms: seq<FieldMapping>, m: FieldMapping)
    ensures RemoveMapping(ms + [m], |ms|) == ms
  {
    assert (ms + [m])[..|ms|] == ms;
  }

  // ------------------------------------------------------------------
  // Adding a mapping
  // ------------------------------------------------------------------

  /** `Math.max(...mappings.map(m => m.colIndex), 1)`. */
  function MaxColIndex(ms: seq<FieldMapping>): (r: int)
    ensures r >= 1
    ensures forall k | 0 <= k < |ms| :: ms[k].colIndex <= r
    ensures r == 1 || exists k | 0 <= k < |ms| :: ms[k].colIndex == r
  {
    if ms == [] then 1
    else
      var rest := MaxColIndex(ms[1..]);
      assert forall k | 1 <= k < |ms| :: ms[k] == ms[1..][k - 1];
      if ms[0].colIndex > rest then ms[0].colIndex else rest
  }

  function NewMapping(id: string, colIndex: int): FieldMapping
  {
    FieldMapping(id, "NOVO CAMPO", "A1", 1, 9999, "@", colIndex)
  }

  /**
   * `addMapping`: the list with one mapping appended, holding the defaults
   * and the column after the largest one in use (at least column 2).
   * `newId` is the timestamp the source uses as id.
   */
  function AddMapping(ms: seq<FieldMapping>, newId: string): (r: seq<FieldMapping>)
    ensures |r| == |ms| + 1 && r[..|ms|] == ms
    ensures var m := r[|ms|];
            m.id == newId && m.fieldName == "NOVO CAMPO" && m.sourceCell == "A1" &&
            m.minReg == 1 && m.maxReg == 9999 && m.format == "@"
    ensures r[|ms|].colIndex >= 2
    ensures forall k | 0 <= k < |ms| :: ms[k].colIndex < r[|ms|].colIndex
  {
    ms + [NewMapping(newId, MaxColIndex(ms) + 1)]
  }

  /** The new column is exactly one past the largest column in use, or 2 when none exceeds 1. */
  lemma AddMappingColumn(ms: seq<FieldMapping>, newId: string)
    ensures var c := AddMapping(ms, newId)[|ms|].colIndex;
            (c == 2 && forall k | 0 <= k < |ms| :: ms[k].colIndex <= 1) ||
            (exists k | 0 <= k < |ms| :: ms[k].colIndex == c - 1 && ms[k].colIndex > 1)
  {
  }

  /** Adding a mapping and then removing it again gives back the list. */
  lemma AddThenRemove(ms: seq<FieldMapping>, newId: string)
    ensures RemoveMapping(AddMapping(ms, newId), |ms|) == ms
  {
    RemoveLast(ms, AddMapping(ms, newId)[|ms|]);
    assert AddMapping(ms, newId) == ms + [AddMapping(ms, newId)[|ms|]];
  }

  // ------------------------------------------------------------------
  // Creating a profile from the panel
  // ------------------------------------------------------------------

  /** The characters `String.prototype.trim` removes: white space and line terminators. */
  predicate IsJsWhitespace(c: char)
  {
    c == '\t' || c == '\n' || c == '\U{B}' || c == '\U{C}' || c == '\r' || c == ' ' ||
    c == '\U{A0}' || c == '\U{1680}' || ('\U{2000}' <= c <= '\U{200A}') ||
    c == '\U{2028}' || c == '\U{2029}' || c == '\U{202F}' || c == '\U{205F}' || c == '\U{3000}' || c == '\U{FEFF}'
  }

  /** `s.trimStart()`: drops the leading white space. */
  function TrimStart(s: string): (r: string)
    ensures |r| <= |s| && r == s[|s| - |r|..]
    ensures r == [] || !IsJsWhitespace(r[0])
    ensures forall k | 0 <= k < |s| - |r| :: IsJsWhitespace(s[k])
  {
    if s == [] || !IsJsWhitespace(s[0]) then s
    else
      var r := TrimStart(s[1..]);
      assert forall k | 1 <= k < |s| :: s[k] == s[1..][k - 1];
      r
  }

  /** `s.trimEnd()`: drops the trailing white space. */
  function TrimEnd(s: string): (r: string)
    ensures |r| <= |s| && r == s[..|r|]
    ensures r == [] || !IsJsWhitespace(r[|r| - 1])
    ensures forall k | |r| <= k < |s| :: IsJsWhitespace(s[k])
  {
    if s == [] || !IsJsWhitespace(s[|s| - 1]) then s
    else TrimEnd(s[..|s| - 1])
  }

  /** `s.trim()`: drops the white space at both ends. */
  function Trim(s: string): (r: string)
    ensures |r| <= |s|
    ensures r == [] || (!IsJsWhitespace(r[0]) && !IsJsWhitespace(r[|r| - 1]))
  {
    TrimEnd(TrimStart(s))
  }

  /** A trimmed string is empty exactly when every character is white space. */
  lemma TrimEmpty(s: string)
    ensures Trim(s) == [] <==> forall k | 0 <= k < |s| :: IsJsWhitespace(s[k])
  {
    var t := TrimStart(s);
    if t != [] {
      assert t[0] == s[|s| - |t|] && !IsJsWhitespace(t[0]);
      assert TrimEnd(t) != [];
    }
  }

  /** The create form: whether it is open and the name typed so far. */
  datatype CreateForm = CreateForm(isCreating: bool, newProfileName: string)

  /** The form after a submit, and the name passed to `onCreateProfile`, if it was called. */
  datatype SubmitResult = SubmitResult(form: CreateForm, created: Option<string>)

  /**
   * `handleCreateSubmit`: a name that is not blank is passed on as typed
   * (untrimmed) and the form is cleared and closed; a blank name changes
   * nothing.
   */
  function CreateSubmit(form: CreateForm): (r: SubmitResult)
    ensures r.created.Some? <==> exists k | 0 <= k < |form.newProfileName| :: !IsJsWhitespace(form.newProfileName[k])
    ensures r.created.Some? ==> r.created.value == form.newProfileName && r.form == CreateForm(false, "")
    ensures r.created.None? ==> r.form == form
  {
    TrimEmpty(form.newProfileName);
    if Trim(form.newProfileName) != [] then SubmitResult(CreateForm(false, ""), Some(form.newProfileName))
    else SubmitResult(form, None)
  }
}
