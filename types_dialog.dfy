/**
  types_dialog.py `TypesDialog`: the kind column of the type list, the two editable
  grids (ENUM values, composite fields) with their add/delete row buttons, and the
  CREATE TYPE statements `create_enum` and `create_composite` assemble from them.
  The type name goes between `"` as typed, nothing doubled.
 */
module TypesDialog {
  import opened Wrappers
  import opened Text
  import opened SqlText

  const ENUM_KIND := "ENUM"
  const COMPOSITE_KIND := "Составной (Composite)"

  /** The kind shown for a type from its `typtype` code: `e` is an ENUM, anything else composite. */
  function KindLabel(typtype: string): (r: string)
    ensures r == ENUM_KIND <==> typtype == "e"
    ensures r != ENUM_KIND ==> r == COMPOSITE_KIND
  {
    if typtype == "e" then ENUM_KIND else COMPOSITE_KIND
  }

  /** The list without its element at `k`, when `k` is a row; the list itself otherwise. */
  function RemoveAt<T>(s: seq<T>, k: int): (r: seq<T>)
    ensures 0 <= k < |s| ==> |r| == |s| - 1
    ensures 0 <= k < |s| ==> forall i :: 0 <= i < k ==> r[i] == s[i]
    ensures 0 <= k < |s| ==> forall i :: k <= i < |r| ==> r[i] == s[i + 1]
    ensures !(0 <= k < |s|) ==> r == s
  {
    if 0 <= k < |s| then s[..k] + s[k + 1..] else s
  }

  const TYPE_NAME_REQUIRED := "Заполните имя типа"
  const VALUE_REQUIRED := "Добавьте хотя бы одно значение"
  const FIELD_REQUIRED := "Добавьте хотя бы одно поле"

  // ---------------------------------------------------------------------------
  // ENUM

  /** The values the ENUM grid's items give, in row order: each non-blank item's text, stripped. */
  function EnumValues(items: seq<Option<string>>): (r: seq<string>)
    ensures |r| <= |items|
    ensures forall j :: 0 <= j < |r| ==> r[j] != ""
    decreases |items|
  {
    if items == [] then []
    else
      var last := items[|items| - 1];
      EnumValues(items[..|items| - 1]) + (if last.Some? && Strip(last.value) != "" then [Strip(last.value)] else [])
  }

  /** `CREATE TYPE ddos."name" AS ENUM ('v1', 'v2', …)` */
  function EnumQuery(name: string, values: seq<string>): string {
    "CREATE TYPE " + SCHEMA + ".\"" + name + "\" AS ENUM " + EnumLabelList(values)
  }

  /** `create_enum`: a blank name is refused first, then an empty value list. */
  function EnumAction(nameText: string, items: seq<Option<string>>): (r: Action)
    ensures r != Raise
    ensures Strip(nameText) == "" ==> r == Warn(TYPE_NAME_REQUIRED)
    ensures r.Warn? <==> Strip(nameText) == "" || EnumValues(items) == []
    ensures r.Execute? ==> r.sql == EnumQuery(Strip(nameText), EnumValues(items))
  {
    var name, values := Strip(nameText), EnumValues(items);
    if name == "" then Warn(TYPE_NAME_REQUIRED)
    else if values == [] then Warn(VALUE_REQUIRED)
    else Execute(EnumQuery(name, values))
  }

  /** The ENUM values grid: one optional item per row. */
  class EnumValueGrid {
    var items: seq<Option<string>>

    constructor()
      ensures items == []
    {
      items := [];
    }

    /** `add_enum_value_row`: one row at the end, holding `VALUE`. */
    method AddRow()
      modifies this
      ensures items == old(items) + [Some("VALUE")]
    {
      items := items + [Some("VALUE")];
    }

    /** `del_enum_value_row`: the current row goes when there is one (`currentRow()` is -1 when there is none). */
    method DeleteRow(current: int)
      modifies this
      ensures items == RemoveAt(old(items), current)
    {
      if current >= 0 && current < |items| {
        items := items[..current] + items[current + 1..];
      }
    }

    /** `create_enum`: the loop over the rows collecting values, then the checks and the statement. */
    method CreateEnum(nameText: string) returns (action: Action)
      ensures action == EnumAction(nameText, items)
    {
      var name := Strip(nameText);
      var values: seq<string> := [];
      for i := 0 to |items|
        invariant values == EnumValues(items[..i])
      {
        EnumValuesStep(items, i);
        var item := items[i];
        if item.Some? && Strip(item.value) != "" {
          values := values + [Strip(item.value)];
        }
      }
      assert items[..|items|] == items;
      if name == "" {
        return Warn(TYPE_NAME_REQUIRED);
      }
      if values == [] {
        return Warn(VALUE_REQUIRED);
      }
      var valuesStr := Join(values, "', '");
      action := Execute("CREATE TYPE " + SCHEMA + ".\"" + name + "\" AS ENUM " + ("('" + valuesStr + "')"));
    }
  }

  /** The values of a non-empty grid: those of all rows but the last, then the last row's. */
  lemma EnumValuesUnfold(items: seq<Option<string>>)
    requires items != []
    ensures var last := items[|items| - 1];
            EnumValues(items) == EnumValues(items[..|items| - 1])
              + (if last.Some? && Strip(last.value) != "" then [Strip(last.value)] else [])
  {
  }

  /** One more row adds its value, if it gives one, after the values of the rows above it. */
  lemma EnumValuesStep(items: seq<Option<string>>, i: nat)
    requires i < |items|
    ensures EnumValues(items[..i + 1]) == EnumValues(items[..i])
      + (if items[i].Some? && Strip(items[i].value) != "" then [Strip(items[i].value)] else [])
  {
    assert items[..i + 1][..i] == items[..i];
    assert items[..i + 1][i] == items[i];
    EnumValuesUnfold(items[..i + 1]);
  }

  lemma EnumValuesPrefix(items: seq<Option<string>>)
    requires items != []
    ensures forall v :: v in EnumValues(items[..|items| - 1]) ==> v in EnumValues(items)
  {
  }

  lemma EnumValuesLast(items: seq<Option<string>>)
    requires items != [] && items[|items| - 1].Some? && Strip(items[|items| - 1].value) != ""
    ensures Strip(items[|items| - 1].value) in EnumValues(items)
  {
  }

  /** Every value comes from a row whose item is not blank: it is that item's stripped text. */
  lemma {:induction false} EnumValuesFromItems(items: seq<Option<string>>, j: nat)
    requires j < |EnumValues(items)|
    ensures exists k :: 0 <= k < |items| && items[k].Some? && EnumValues(items)[j] == Strip(items[k].value)
    decreases |items|
  {
    var init, last := items[..|items| - 1], items[|items| - 1];
    var before := EnumValues(init);
    EnumValuesUnfold(items);
    if j < |before| {
      EnumValuesFromItems(init, j);
      var k :| 0 <= k < |init| && init[k].Some? && before[j] == Strip(init[k].value);
      assert items[k] == init[k];
      assert EnumValues(items)[j] == before[j];
      assert 0 <= k < |items| && items[k].Some? && EnumValues(items)[j] == Strip(items[k].value);
    } else {
      assert last.Some? && EnumValues(items)[j] == Strip(last.value);
      assert 0 <= |items| - 1 < |items| && items[|items| - 1].Some? && EnumValues(items)[j] == Strip(items[|items| - 1].value);
    }
  }

  /** Every row whose item is not blank gives its stripped text as a value. */
  lemma {:induction false} EnumValueOfItem(items: seq<Option<string>>, k: nat)
    requires k < |items| && items[k].Some? && Strip(items[k].value) != ""
    ensures Strip(items[k].value) in EnumValues(items)
    decreases |items|
  {
    var init := items[..|items| - 1];
    if k < |init| {
      assert init[k] == items[k];
      EnumValueOfItem(init, k);
      EnumValuesPrefix(items);
    } else {
      EnumValuesLast(items);
    }
  }

  /** For values free of `'`, the list in the statement cuts back into the values, in order. */
  lemma EnumQueryReadBack(name: string, values: seq<string>)
    requires |values| > 0
    requires forall j, i :: 0 <= j < |values| && 0 <= i < |values[j]| ==> values[j][i] != '\''
    ensures var q := EnumQuery(name, values);
            var p := "CREATE TYPE " + SCHEMA + ".\"" + name + "\" AS ENUM ";
            && StartsWith(q, p + "('") && EndsWith(q, "')")
            && Unjoin(q[|p| + 2..|q| - 2], "', '") == values
  {
    var q := EnumQuery(name, values);
    var p := "CREATE TYPE " + SCHEMA + ".\"" + name + "\" AS ENUM ";
    var l := EnumLabelList(values);
    assert q == p + l;
    assert q[|p| + 2..|q| - 2] == l[2..|l| - 2];
    assert q[..|p| + 2] == p + "('";
    assert q[|q| - 2..] == l[|l| - 2..];
    EnumLabelListReadBack(values);
  }

  // ---------------------------------------------------------------------------
  // Composite

  /** One row of the composite grid: the name cell's item and the type cell's combo text, if each is there. */
  datatype FieldRow = FieldRow(nameItem: Option<string>, typeWidget: Option<string>)

  /** A row gives a field when both cells are there and both stripped texts are non-blank. */
  predicate GivesField(row: FieldRow) {
    row.nameItem.Some? && row.typeWidget.Some? && Strip(row.nameItem.value) != "" && Strip(row.typeWidget.value) != ""
  }

  /** `name type` */
  function FieldOf(row: FieldRow): string
    requires GivesField(row)
  {
    Strip(row.nameItem.value) + " " + Strip(row.typeWidget.value)
  }

  /** The fields the grid's rows give, in row order. */
  function CompositeFields(rows: seq<FieldRow>): (r: seq<string>)
    ensures |r| <= |rows|
    decreases |rows|
  {
    if rows == [] then []
    else
      var last := rows[|rows| - 1];
      CompositeFields(rows[..|rows| - 1]) + (if GivesField(last) then [FieldOf(last)] else [])
  }

  /** `CREATE TYPE ddos."name" AS (\nf1,\nf2\n)` */
  function CompositeQuery(name: string, fields: seq<string>): string {
    "CREATE TYPE " + SCHEMA + ".\"" + name + "\" AS (\n" + Join(fields, ",\n") + "\n)"
  }

  /** `create_composite`: a blank name is refused first, then an empty field list. */
  function CompositeAction(nameText: string, rows: seq<FieldRow>): (r: Action)
    ensures r != Raise
    ensures Strip(nameText) == "" ==> r == Warn(TYPE_NAME_REQUIRED)
    ensures r.Warn? <==> Strip(nameText) == "" || CompositeFields(rows) == []
    ensures r.Execute? ==> r.sql == CompositeQuery(Strip(nameText), CompositeFields(rows))
  {
    var name, fields := Strip(nameText), CompositeFields(rows);
    if name == "" then Warn(TYPE_NAME_REQUIRED)
    else if fields == [] then Warn(FIELD_REQUIRED)
    else Execute(CompositeQuery(name, fields))
  }

  /** The composite fields grid: a name item and a type combo per row. */
  class CompositeFieldGrid {
    var rows: seq<FieldRow>

    constructor()
      ensures rows == []
    {
      rows := [];
    }

    /** `add_comp_field_row`: one row at the end, named `field_name`, its type combo showing its first item. */
    method AddRow()
      modifies this
      ensures rows == old(rows) + [FieldRow(Some("field_name"), Some("integer"))]
    {
      rows := rows + [FieldRow(Some("field_name"), Some("integer"))];
    }

    /** `del_comp_field_row`: the current row goes when there is one. */
    method DeleteRow(current: int)
      modifies this
      ensures rows == RemoveAt(old(rows), current)
    {
      if current >= 0 && current < |rows| {
        rows := rows[..current] + rows[current + 1..];
      }
    }

    /** `create_composite`: the name check, the loop over the rows collecting fields, then the statement. */
    method CreateComposite(nameText: string) returns (action: Action)
      ensures action == CompositeAction(nameText, rows)
    {
      var name := Strip(nameText);
      if name == "" {
        return Warn(TYPE_NAME_REQUIRED);
      }
      var fields: seq<string> := [];
      for i := 0 to |rows|
        invariant fields == CompositeFields(rows[..i])
      {
        CompositeFieldsStep(rows, i);
        var row := rows[i];
        if row.nameItem.Some? && row.typeWidget.Some? {
          var fname := Strip(row.nameItem.value);
          var ftype := Strip(row.typeWidget.value);
          if fname != "" && ftype != "" {
            fields := fields + [fname + " " + ftype];
          }
        }
      }
      assert rows[..|rows|] == rows;
      if fields == [] {
        return Warn(FIELD_REQUIRED);
      }
      var fieldsStr := Join(fields, ",\n");
      action := Execute("CREATE TYPE " + SCHEMA + ".\"" + name + "\" AS (\n" + fieldsStr + "\n)");
    }
  }

  /** The fields of a non-empty grid: those of all rows but the last, then the last row's. */
  lemma CompositeFieldsUnfold(rows: seq<FieldRow>)
    requires rows != []
    ensures CompositeFields(rows) == CompositeFields(rows[..|rows| - 1])
      + (if GivesField(rows[|rows| - 1]) then [FieldOf(rows[|rows| - 1])] else [])
  {
  }

  /** One more row adds its field, if it gives one, after the fields of the rows above it. */
  lemma CompositeFieldsStep(rows: seq<FieldRow>, i: nat)
    requires i < |rows|
    ensures CompositeFields(rows[..i + 1]) == CompositeFields(rows[..i])
      + (if GivesField(rows[i]) then [FieldOf(rows[i])] else [])
  {
    assert rows[..i + 1][..i] == rows[..i];
    assert rows[..i + 1][i] == rows[i];
    CompositeFieldsUnfold(rows[..i + 1]);
  }

  lemma CompositeFieldsPrefix(rows: seq<FieldRow>)
    requires rows != []
    ensures forall v :: v in CompositeFields(rows[..|rows| - 1]) ==> v in CompositeFields(rows)
  {
  }

  lemma CompositeFieldsLast(rows: seq<FieldRow>)
    requires rows != [] && GivesField(rows[|rows| - 1])
    ensures FieldOf(rows[|rows| - 1]) in CompositeFields(rows)
  {
  }

  /** Every field comes from a row with both a name and a type: it is that row's `name type`. */
  lemma {:induction false} CompositeFieldsFromRows(rows: seq<FieldRow>, j: nat)
    requires j < |CompositeFields(rows)|
    ensures exists k :: 0 <= k < |rows| && GivesField(rows[k]) && CompositeFields(rows)[j] == FieldOf(rows[k])
    decreases |rows|
  {
    var init, last := rows[..|rows| - 1], rows[|rows| - 1];
    var before := CompositeFields(init);
    CompositeFieldsUnfold(rows);
    if j < |before| {
      CompositeFieldsFromRows(init, j);
      var k :| 0 <= k < |init| && GivesField(init[k]) && before[j] == FieldOf(init[k]);
      assert rows[k] == init[k];
      assert CompositeFields(rows)[j] == before[j];
      assert 0 <= k < |rows| && GivesField(rows[k]) && CompositeFields(rows)[j] == FieldOf(rows[k]);
    } else {
      assert GivesField(last) && CompositeFields(rows)[j] == FieldOf(last);
      assert 0 <= |rows| - 1 < |rows| && GivesField(rows[|rows| - 1]) && CompositeFields(rows)[j] == FieldOf(rows[|rows| - 1]);
    }
  }

  /** Every row with both a name and a type gives its field. */
  lemma {:induction false} CompositeFieldOfRow(rows: seq<FieldRow>, k: nat)
    requires k < |rows| && GivesField(rows[k])
    ensures FieldOf(rows[k]) in CompositeFields(rows)
    decreases |rows|
  {
    var init := rows[..|rows| - 1];
    if k < |init| {
      assert init[k] == rows[k];
      CompositeFieldOfRow(init, k);
      CompositeFieldsPrefix(rows);
    } else {
      CompositeFieldsLast(rows);
    }
  }

  /**
    For single-line fields (a `,` inside one, as in `numeric(10,2)`, is fine), the
    body of the statement cuts back at each `,\n` into the fields, in order.
   */
  lemma CompositeQueryReadBack(name: string, fields: seq<string>)
    requires |fields| > 0
    requires forall j, i :: 0 <= j < |fields| && 0 <= i < |fields[j]| ==> fields[j][i] != '\n'
    ensures var q := CompositeQuery(name, fields);
            var p := "CREATE TYPE " + SCHEMA + ".\"" + name + "\" AS (\n";
            && StartsWith(q, p) && EndsWith(q, "\n)")
            && UnjoinAtLast(q[|p|..|q| - 2], ",\n") == fields
  {
    var q := CompositeQuery(name, fields);
    var p := "CREATE TYPE " + SCHEMA + ".\"" + name + "\" AS (\n";
    var body := Join(fields, ",\n");
    assert q == p + body + "\n)";
    assert q[|p|..|q| - 2] == body;
    assert q[..|p|] == p;
    assert q[|q| - 2..] == "\n)";
    var sep := ",\n";
    assert sep[|sep| - 1] == '\n' && sep[0] == ',';
    UnjoinAtLastJoin(fields, sep);
  }
}
