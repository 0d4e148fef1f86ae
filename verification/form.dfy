/** `render_dynamic_form` and `render_field` in `utils/dynamic_json_ui.py`.

A placeholder schema is a JSON object from key to field, in file order; a
field has a "type" and, optionally, a "value". The form renders in two
passes: text, select and date fields first, alternating between a left and
a right column starting on the left; then textarea and bullets fields, each
in its own box. The result maps every rendered key to its widget's value.

The widgets become a `Ui` record: what the user typed in a text field or
text area (absent when untouched, in which case the widget returns its
initial value), the option index chosen in a select box, the date picked
in a date input, and today's date.
 */
module DynamicForm {
  import opened Wrappers
  import Dates

  /** A field's JSON value: a string, an object (whose "options" list is
  what a select box offers), null, or anything else. */
  datatype Value = Null | Str(s: string) | Choices(options: seq<string>) | Other

  datatype Field = Field(kind: Option<string>, value: Option<Value>)

  type Schema = seq<(string, Field)>

  /** The JSON object has one field per key. */
  predicate UniqueKeys<T>(entries: seq<(string, T)>) {
    forall i, j :: 0 <= i < j < |entries| ==> entries[i].0 != entries[j].0
  }

  /** `field["type"]` exists for every field: otherwise the first pass
  raises `KeyError`. */
  predicate Typed(schema: Schema) {
    forall i :: 0 <= i < |schema| ==> schema[i].1.kind.Some?
  }

  const FirstPassKinds: set<string> := {"text", "select", "date"}
  const SecondPassKinds: set<string> := {"textarea", "bullets"}

  predicate InFirstPass(f: Field) {
    f.kind.Some? && f.kind.value in FirstPassKinds
  }

  predicate InSecondPass(f: Field) {
    f.kind.Some? && f.kind.value in SecondPassKinds
  }

  /** The fields of `schema` a pass renders, in schema order. */
  function Select(schema: Schema, second: bool): (sel: Schema)
    ensures |sel| <= |schema|
    ensures forall e :: e in sel <==> e in schema && (if second then InSecondPass(e.1) else InFirstPass(e.1))
  {
    if schema == [] then []
    else
      var keep := if second then InSecondPass(schema[0].1) else InFirstPass(schema[0].1);
      var rest := Select(schema[1..], second);
      assert forall e :: e in schema <==> e == schema[0] || e in schema[1..];
      if keep then [schema[0]] + rest else rest
  }

  /** `field.get("value", "")`. */
  function Default(f: Field): Value
  {
    f.value.GetOr(Str(""))
  }

  /** The text a text widget starts with. */
  function TextOf(v: Value): string
  {
    if v.Str? then v.s else ""
  }

  /** The options of a select box: the value's "options" list when the value
  is an object, otherwise none. */
  function SelectOptions(default: Value): seq<string>
  {
    if default.Choices? then default.options else []
  }

  /** The first position of `v` among `options`, or `|options|`. */
  function Position(options: seq<string>, v: Value): (i: nat)
    ensures i <= |options|
    ensures i < |options| ==> Str(options[i]) == v
  {
    if options == [] then 0
    else if Str(options[0]) == v then 0
    else 1 + Position(options[1..], v)
  }

  /** The select box's initial index: the position of the value among its own
  options when it is one of them, else 0. An object is never one of its
  own string options, so it is always 0. */
  function SelectInitial(default: Value): (index: nat)
    ensures index == 0
  {
    var options := SelectOptions(default);
    if default.Choices? && Position(options, default) < |options| then Position(options, default) else 0
  }

  /** The default date of a date field, as written: the value parsed as
  `%Y-%m-%d`, or today when it does not parse. */
  function DateDefaultAsWritten(default: Value, today: Dates.Date): (d: Dates.Date)
    ensures default.Str? && Dates.ParseYmd(default.s).Some? ==> d == Dates.ParseYmd(default.s).value
    ensures !(default.Str? && Dates.ParseYmd(default.s).Some?) ==> d == today
  {
    if default.Str? && Dates.ParseYmd(default.s).Some? then Dates.ParseYmd(default.s).value else today
  }

  /** The default date of a date field: the value parsed as `%Y-%m-%d`, or
  else in the `%d.%B.%Y` form the field itself saves, or today. */
  function DateDefault(default: Value, today: Dates.Date): (d: Dates.Date)
    requires Dates.Valid(today)
    ensures Dates.Valid(d)
    ensures default.Str? && Dates.ParseYmd(default.s).Some? ==> d == Dates.ParseYmd(default.s).value
  {
    if !default.Str? then today
    else
      match Dates.ParseYmd(default.s)
      case Some(d) => d
      case None => Dates.ParseDotted(default.s).GetOr(today)
  }

  /** A date the field saved is read back as that same date, for four-digit
  years. */
  lemma SavedDateKept(d: Dates.Date, today: Dates.Date)
    requires Dates.Valid(d) && d.year >= 1000 && Dates.Valid(today)
    ensures DateDefault(Str(Dates.FormatDotted(d)), today) == d
  {
    Dates.DottedIsNotYmd(d);
    Dates.ParseFormatDotted(d);
  }

  /** As written, a date string the field saved is never read back: the
  field reloads as today whatever date was saved. */
  lemma SavedDateResetsAsWritten(d: Dates.Date, today: Dates.Date)
    requires Dates.Valid(d)
    ensures DateDefaultAsWritten(Str(Dates.FormatDotted(d)), today) == today
  {
    Dates.DottedIsNotYmd(d);
  }

  /** The widgets' state. */
  datatype Ui = Ui(typed: map<string, string>, chosen: map<string, nat>, picked: map<string, Dates.Date>, today: Dates.Date)

  /** The date inputs hold real dates. */
  predicate UiValid(ui: Ui) {
    Dates.Valid(ui.today) && forall k :: k in ui.picked ==> Dates.Valid(ui.picked[k])
  }

  /** What the widget of field `key` returns. */
  function WidgetValue(key: string, f: Field, ui: Ui): (v: Value)
    requires f.kind.Some? && UiValid(ui)
    ensures f.kind.value == "date" ==> v.Str?
    ensures f.kind.value == "select" ==> (v == Null <==> SelectOptions(Default(f)) == [])
    ensures f.kind.value == "select" && v.Str? ==> v.s in SelectOptions(Default(f))
    ensures f.kind.value == "select" && key in ui.chosen && ui.chosen[key] < |SelectOptions(Default(f))| ==>
              v == Str(SelectOptions(Default(f))[ui.chosen[key]])
    ensures f.kind.value == "select" && SelectOptions(Default(f)) != [] && !(key in ui.chosen && ui.chosen[key] < |SelectOptions(Default(f))|) ==>
              v == Str(SelectOptions(Default(f))[0])
    ensures f.kind.value == "date" && key in ui.picked ==> v == Str(Dates.FormatDotted(ui.picked[key]))
    ensures f.kind.value == "date" && key !in ui.picked ==> v == Str(Dates.FormatDotted(DateDefault(Default(f), ui.today)))
    ensures f.kind.value != "select" && f.kind.value != "date" && key in ui.typed ==> v == Str(ui.typed[key])
    ensures f.kind.value != "select" && f.kind.value != "date" && key !in ui.typed ==> v == Str(TextOf(Default(f)))
  {
    var default := Default(f);
    match f.kind.value
    case "select" =>
      var options := SelectOptions(default);
      if options == [] then Null
      else
        var i := if key in ui.chosen && ui.chosen[key] < |options| then ui.chosen[key] else SelectInitial(default);
        Str(options[i])
    case "date" =>
      var d := if key in ui.picked then ui.picked[key] else DateDefault(default, ui.today);
      Str(Dates.FormatDotted(d))
    case _ =>
      Str(if key in ui.typed then ui.typed[key] else TextOf(default))
  }

  datatype Place = Left | Right | Boxed

  datatype Entry = Entry(key: string, value: Value, place: Place)

  /** The column of the `j`-th first-pass widget when the flag starts at
  `left`: the columns alternate. */
  function Column(j: nat, left: bool): Place
  {
    if (j % 2 == 0) == left then Left else Right
  }

  /** One step later with the flag flipped is the same column. */
  lemma ColumnShift(left: bool)
    ensures forall j: nat :: 1 <= j ==> Column(j, left) == Column(j - 1, !left)
  {
  }

  /** The first pass over `fields`, the column flag starting at `left`. */
  function FirstPass(fields: Schema, ui: Ui, left: bool): (r: seq<Entry>)
    requires Typed(fields) && UiValid(ui)
    ensures |r| == |fields|
    ensures forall j :: 0 <= j < |r| ==> r[j].key == fields[j].0 && r[j].value == WidgetValue(fields[j].0, fields[j].1, ui)
    ensures forall j :: 0 <= j < |r| ==> r[j].place == Column(j, left)
  {
    if fields == [] then []
    else
      var rest := FirstPass(fields[1..], ui, !left);
      var here := Entry(fields[0].0, WidgetValue(fields[0].0, fields[0].1, ui), Column(0, left));
      ColumnShift(left);
      assert forall j :: 1 <= j < |fields| ==> ([here] + rest)[j] == rest[j - 1] && fields[1..][j - 1] == fields[j];
      [here] + rest
  }

  /** The second pass: every field in a box of its own. */
  function SecondPass(fields: Schema, ui: Ui): (r: seq<Entry>)
    requires Typed(fields) && UiValid(ui)
    ensures |r| == |fields|
    ensures forall j :: 0 <= j < |r| ==>
              r[j] == Entry(fields[j].0, Str(if fields[j].0 in ui.typed then ui.typed[fields[j].0] else TextOf(Default(fields[j].1))), Boxed)
  {
    if fields == [] then []
    else
      [Entry(fields[0].0, Str(if fields[0].0 in ui.typed then ui.typed[fields[0].0] else TextOf(Default(fields[0].1))), Boxed)]
        + SecondPass(fields[1..], ui)
  }

  lemma SelectTyped(schema: Schema, second: bool)
    requires Typed(schema)
    ensures Typed(Select(schema, second))
  {
    var sel := Select(schema, second);
    forall i | 0 <= i < |sel|
      ensures sel[i].1.kind.Some?
    {
      assert sel[i] in sel;
    }
  }

  datatype Failure = MissingType

  /** `render_dynamic_form`: the rendered widgets in order, first pass then
  second pass, or a failure when a field has no type. */
  function Render(schema: Schema, ui: Ui): (r: Result<seq<Entry>, Failure>)
    requires UiValid(ui)
    ensures r.Ok? <==> Typed(schema)
    ensures r.Ok? ==> |r.value| == |Select(schema, false)| + |Select(schema, true)|
  {
    if !Typed(schema) then Err(MissingType)
    else
      SelectTyped(schema, false);
      SelectTyped(schema, true);
      Ok(FirstPass(Select(schema, false), ui, true) + SecondPass(Select(schema, true), ui))
  }

  /** The keys of the result, in order. */
  function Keys<T>(entries: seq<(string, T)>): (ks: seq<string>)
    ensures |ks| == |entries|
    ensures forall i :: 0 <= i < |ks| ==> ks[i] == entries[i].0
  {
    seq(|entries|, i requires 0 <= i < |entries| => entries[i].0)
  }

  function EntryKeys(entries: seq<Entry>): (ks: seq<string>)
    ensures |ks| == |entries|
    ensures forall i :: 0 <= i < |ks| ==> ks[i] == entries[i].key
  {
    seq(|entries|, i requires 0 <= i < |entries| => entries[i].key)
  }

  /** The field types the form renders. */
  predicate Rendered(f: Field) {
    InFirstPass(f) || InSecondPass(f)
  }

  /** Where each widget of the result comes from: the first pass's fields,
  then the second pass's. */
  lemma RenderSources(schema: Schema, ui: Ui, j: nat)
    requires UiValid(ui) && Typed(schema)
    requires j < |Render(schema, ui).value|
    ensures var s1 := Select(schema, false);
            var s2 := Select(schema, true);
            Render(schema, ui).value[j].key == (if j < |s1| then s1[j].0 else s2[j - |s1|].0)
  {
    SelectTyped(schema, false);
    SelectTyped(schema, true);
    var f := FirstPass(Select(schema, false), ui, true);
    var b := SecondPass(Select(schema, true), ui);
    assert Render(schema, ui).value == f + b;
  }

  /** Every key of the result belongs to a field of a rendered type. */
  lemma RenderedKeysSound(schema: Schema, ui: Ui, key: string)
    requires UiValid(ui) && Typed(schema)
    requires key in EntryKeys(Render(schema, ui).value)
    ensures exists i :: 0 <= i < |schema| && schema[i].0 == key && Rendered(schema[i].1)
  {
    var s1 := Select(schema, false);
    var s2 := Select(schema, true);
    var r := Render(schema, ui).value;
    var j :| 0 <= j < |r| && EntryKeys(r)[j] == key;
    RenderSources(schema, ui, j);
    var e := if j < |s1| then s1[j] else s2[j - |s1|];
    assert e in s1 || e in s2;
    assert e in schema && e.0 == key && Rendered(e.1);
    var i :| 0 <= i < |schema| && schema[i] == e;
  }

  /** Every field of a rendered type has its key in the result. */
  lemma RenderedKeysComplete(schema: Schema, ui: Ui, i: nat)
    requires UiValid(ui) && Typed(schema)
    requires i < |schema| && Rendered(schema[i].1)
    ensures schema[i].0 in EntryKeys(Render(schema, ui).value)
  {
    var idx: nat;
    if InFirstPass(schema[i].1) {
      idx := PassPosition(schema, false, i);
    } else {
      var j := PassPosition(schema, true, i);
      idx := |Select(schema, false)| + j;
    }
    RenderSources(schema, ui, idx);
    var ks := EntryKeys(Render(schema, ui).value);
    assert ks[idx] == schema[i].0;
  }

  /** A field a pass renders has a position in that pass. */
  lemma PassPosition(schema: Schema, second: bool, i: nat) returns (j: nat)
    requires i < |schema| && (if second then InSecondPass(schema[i].1) else InFirstPass(schema[i].1))
    ensures j < |Select(schema, second)| && Select(schema, second)[j] == schema[i]
  {
    var sel := Select(schema, second);
    assert schema[i] in schema;
    assert schema[i] in sel;
    j :| 0 <= j < |sel| && sel[j] == schema[i];
  }

  /** The first-pass widgets alternate left, right, left, … from the left,
  and every other widget sits in a box. */
  lemma Columns(schema: Schema, ui: Ui)
    requires UiValid(ui) && Typed(schema)
    ensures var r := Render(schema, ui).value;
            var n := |Select(schema, false)|;
            && (forall j :: 0 <= j < n ==> r[j].place == (if j % 2 == 0 then Left else Right))
            && (forall j :: n <= j < |r| ==> r[j].place == Boxed)
  {
    SelectTyped(schema, false);
    SelectTyped(schema, true);
    var f := FirstPass(Select(schema, false), ui, true);
    var b := SecondPass(Select(schema, true), ui);
    assert Render(schema, ui).value == f + b;
  }

  /** Every date field returns its date in the `%d.%B.%Y` form, the picked
  date or else the default. */
  lemma DateFieldsDotted(schema: Schema, ui: Ui, j: nat)
    requires UiValid(ui) && Typed(schema)
    requires j < |Select(schema, false)| && Select(schema, false)[j].1.kind.value == "date"
    ensures var key := Select(schema, false)[j].0;
            var d := if key in ui.picked then ui.picked[key] else DateDefault(Default(Select(schema, false)[j].1), ui.today);
            Render(schema, ui).value[j].value == Str(Dates.FormatDotted(d))
  {
    SelectTyped(schema, false);
    SelectTyped(schema, true);
  }
}
