/**
  The record-entry dialog of gui.py (`InputDialog.save`): each column's widget
  state becomes a column value; a blank `name` column is rejected; otherwise the
  row is handed to the insert routine, which is not part of this model.
 */
module InputDialog {
  import opened Wrappers
  import opened Text
  import opened Composite

  /** A column value as the dialog collects it (Python `None`, `str`, `int`, `float`, `bool`). */
  datatype Value = Null | Text(s: string) | Int(i: int) | Real(x: real) | Bool(b: bool)

  /** The state of one column's widget when the user presses save. */
  datatype Widget =
    | CompositeGroup(subTexts: seq<string>)      // one line edit per sub-field, in declaration order
    | LineEdit(text: string)
    | Combo(currentText: string, currentData: Value)
    | SpinBox(count: int)
    | DoubleSpinBox(amount: real)
    | DateEdit(isoDate: string)                  // the date already rendered as yyyy-MM-dd
    | CheckBox(checked: bool)

  /** What pressing save does. */
  datatype SaveOutcome =
    | NoTable                                     // no table chosen: nothing happens
    | Rejected(errors: seq<string>)               // a warning listing the errors
    | Insert(table: string, data: map<string, Value>)  // the row handed to the insert routine

  const NAME_REQUIRED := "Поле 'Название' обязательно"

  /** Python's `not val`. */
  predicate Falsy(v: Value) {
    v == Null || v == Text("") || v == Int(0) || v == Real(0.0) || v == Bool(false)
  }

  /** The value collected from one column's widget. */
  function WidgetValue(column: string, w: Widget): (r: Value)
    ensures w.CompositeGroup? ==> (r == Null <==> AllBlank(w.subTexts))
    ensures w.CompositeGroup? && r != Null ==> r == Text(CompositeValueAsWritten(w.subTexts).value)
    ensures w.LineEdit? ==> (r == Null <==> Strip(w.text) == "")
    ensures w.LineEdit? && r != Null ==> r == Text(Strip(w.text)) && r.s != ""
    ensures w.Combo? ==> r == (if column == "auxiliary_id" then w.currentData else Text(w.currentText))
  {
    match w
    case CompositeGroup(texts) =>
      (match CompositeValueAsWritten(texts) case None => Null case Some(lit) => Text(lit))
    case LineEdit(t) => if Strip(t) == "" then Null else Text(Strip(t))
    case Combo(text, item) => if column == "auxiliary_id" then item else Text(text)
    case SpinBox(n) => Int(n)
    case DoubleSpinBox(x) => Real(x)
    case DateEdit(d) => Text(d)
    case CheckBox(b) => Bool(b)
  }

  /** The error a column contributes: only a falsy `name` column has one. */
  predicate MissingName(column: string, w: Widget) {
    column == "name" && Falsy(WidgetValue(column, w))
  }

  /** The collected row: every column mapped to its widget's value (a later entry for a column wins). */
  function DataOf(widgets: seq<(string, Widget)>): (r: map<string, Value>)
    ensures r.Keys == set k | 0 <= k < |widgets| :: widgets[k].0
    decreases |widgets|
  {
    if widgets == [] then map[]
    else
      var last := widgets[|widgets| - 1];
      var prefix := widgets[..|widgets| - 1];
      assert forall k :: 0 <= k < |prefix| ==> prefix[k] == widgets[k];
      DataOf(prefix)[last.0 := WidgetValue(last.0, last.1)]
  }

  /** The errors, one per falsy `name` column, in column order. */
  function ErrorsOf(widgets: seq<(string, Widget)>): (r: seq<string>)
    ensures forall e :: e in r ==> e == NAME_REQUIRED
    decreases |widgets|
  {
    if widgets == [] then []
    else
      var last := widgets[|widgets| - 1];
      ErrorsOf(widgets[..|widgets| - 1]) + (if MissingName(last.0, last.1) then [NAME_REQUIRED] else [])
  }

  /** What pressing save does, for the chosen table and the widgets in form order. */
  function SaveResult(table: string, widgets: seq<(string, Widget)>): SaveOutcome {
    if table == "" then NoTable
    else if ErrorsOf(widgets) != [] then Rejected(ErrorsOf(widgets))
    else Insert(table, DataOf(widgets))
  }

  /**
    The save loop: compute each column's value (the composite loop for composite
    columns), record an error for a falsy `name`, store the value; then warn or insert.
   */
  method Save(table: string, widgets: seq<(string, Widget)>) returns (outcome: SaveOutcome)
    ensures outcome == SaveResult(table, widgets)
  {
    if table == "" {
      return NoTable;
    }
    var data: map<string, Value> := map[];
    var errors: seq<string> := [];
    var i := 0;
    while i < |widgets|
      invariant 0 <= i <= |widgets|
      invariant data == DataOf(widgets[..i])
      invariant errors == ErrorsOf(widgets[..i])
    {
      var (column, w) := widgets[i];
      var val: Value;
      match w {
        case CompositeGroup(texts) =>
          var lit := BuildCompositeValue(texts);
          val := if lit.None? then Null else Text(lit.value);
        case LineEdit(t) =>
          var text := Strip(t);
          val := if text == "" then Null else Text(text);
        case Combo(text, item) =>
          val := if column == "auxiliary_id" then item else Text(text);
        case SpinBox(n) =>
          val := Int(n);
        case DoubleSpinBox(x) =>
          val := Real(x);
        case DateEdit(d) =>
          val := Text(d);
        case CheckBox(b) =>
          val := Bool(b);
      }
      assert val == WidgetValue(column, w);
      if column == "name" && Falsy(val) {
        errors := errors + [NAME_REQUIRED];
      }
      data := data[column := val];
      assert widgets[..i + 1][..i] == widgets[..i];
      i := i + 1;
    }
    assert widgets[..i] == widgets;
    if errors != [] {
      return Rejected(errors);
    }
    return Insert(table, data);
  }

  /** No error is recorded exactly when no `name` column is falsy. */
  lemma {:induction false} ErrorsOfEmpty(widgets: seq<(string, Widget)>)
    ensures ErrorsOf(widgets) == [] <==>
            forall k :: 0 <= k < |widgets| ==> !MissingName(widgets[k].0, widgets[k].1)
    decreases |widgets|
  {
    if widgets != [] {
      var prefix := widgets[..|widgets| - 1];
      ErrorsOfEmpty(prefix);
      assert forall k :: 0 <= k < |prefix| ==> prefix[k] == widgets[k];
    }
  }

  /**
    With a table chosen, save is rejected exactly when some `name` column is empty
    (falsy), and otherwise hands the collected row to the insert routine.
   */
  lemma NameRequired(table: string, widgets: seq<(string, Widget)>)
    requires table != ""
    ensures SaveResult(table, widgets).Rejected? <==>
            exists k :: 0 <= k < |widgets| && MissingName(widgets[k].0, widgets[k].1)
    ensures SaveResult(table, widgets).Insert? <==> !SaveResult(table, widgets).Rejected?
  {
    ErrorsOfEmpty(widgets);
  }

  /** With distinct column names, the collected row maps every column to its own widget's value. */
  lemma {:induction false} DataOfColumns(widgets: seq<(string, Widget)>)
    requires forall i, j :: 0 <= i < j < |widgets| ==> widgets[i].0 != widgets[j].0
    ensures forall k :: 0 <= k < |widgets| ==>
              DataOf(widgets)[widgets[k].0] == WidgetValue(widgets[k].0, widgets[k].1)
    decreases |widgets|
  {
    if widgets != [] {
      var prefix, last := widgets[..|widgets| - 1], widgets[|widgets| - 1];
      assert forall k :: 0 <= k < |prefix| ==> prefix[k] == widgets[k];
      DataOfColumns(prefix);
      forall k | 0 <= k < |widgets|
        ensures DataOf(widgets)[widgets[k].0] == WidgetValue(widgets[k].0, widgets[k].1)
      {
        if k < |prefix| {
          assert widgets[k].0 != last.0;
        }
      }
    }
  }

  /**
    A stored composite column whose sub-fields hold no backslash is a literal the
    database reads back as the stripped sub-fields. A backslash is lost on the way
    (`Composite.BackslashLostOnRead`).
   */
  lemma CompositeColumnReadBack(column: string, texts: seq<string>)
    requires WidgetValue(column, CompositeGroup(texts)) != Null
    requires forall i :: 0 <= i < |texts| ==> NoBackslash(Strip(texts[i]))
    ensures RecordIn(WidgetValue(column, CompositeGroup(texts)).s) == Some(FieldValues(StrippedFields(texts)))
  {
    CompositeAgreesWithoutBackslash(texts);
    CompositeValueReadBack(texts);
  }
}
