/**
  alter_dialog.py `AlterTableDialog`: the seven ALTER TABLE statements `build_sql`
  assembles from the operation combo, the table field and the operation's own
  widgets, and the guard in `execute` that hands only a built statement to the
  database. Identifiers and types are inserted as typed, unquoted.
 */
module AlterDialog {
  import opened Wrappers
  import opened Text
  import opened SqlText

  const ADD_COLUMN := "Добавить столбец"
  const DROP_COLUMN := "Удалить столбец"
  const RENAME_COLUMN := "Переименовать столбец"
  const ALTER_TYPE := "Изменить тип данных"
  const ADD_CONSTRAINT := "Добавить ограничение"
  const DROP_CONSTRAINT := "Удалить ограничение"
  const RENAME_TABLE := "Переименовать таблицу"

  const FILL_ALL_FIELDS := "Заполните все поля"

  datatype Operation =
    | AddColumn | DropColumn | RenameColumn | AlterType
    | AddConstraint | DropConstraint | RenameTable | UnknownOperation

  /** The operation the combo's text names; the source compares the text for equality. */
  function OperationOf(choice: string): Operation {
    if choice == ADD_COLUMN then AddColumn
    else if choice == DROP_COLUMN then DropColumn
    else if choice == RENAME_COLUMN then RenameColumn
    else if choice == ALTER_TYPE then AlterType
    else if choice == ADD_CONSTRAINT then AddConstraint
    else if choice == DROP_CONSTRAINT then DropConstraint
    else if choice == RENAME_TABLE then RenameTable
    else UnknownOperation
  }

  /** The operation combo's items, in order, and the operation each one selects. */
  const OPERATION_LABELS: seq<string> := [ADD_COLUMN, DROP_COLUMN, RENAME_COLUMN, ALTER_TYPE, ADD_CONSTRAINT, DROP_CONSTRAINT, RENAME_TABLE]
  const OPERATIONS: seq<Operation> := [AddColumn, DropColumn, RenameColumn, AlterType, AddConstraint, DropConstraint, RenameTable]

  lemma SelectsAddColumn()
    ensures OperationOf(ADD_COLUMN) == AddColumn
  {

  }

  lemma SelectsDropColumn()
    ensures OperationOf(DROP_COLUMN) == DropColumn
  {
    assert |DROP_COLUMN| != |ADD_COLUMN|;
  }

  lemma SelectsRenameColumn()
    ensures OperationOf(RENAME_COLUMN) == RenameColumn
  {
    assert |RENAME_COLUMN| != |ADD_COLUMN|;
    assert |RENAME_COLUMN| != |DROP_COLUMN|;
  }

  lemma SelectsAlterType()
    ensures OperationOf(ALTER_TYPE) == AlterType
  {
    assert |ALTER_TYPE| != |ADD_COLUMN|;
    assert |ALTER_TYPE| != |DROP_COLUMN|;
    assert |ALTER_TYPE| != |RENAME_COLUMN|;
  }

  lemma SelectsAddConstraint()
    ensures OperationOf(ADD_CONSTRAINT) == AddConstraint
  {
    assert |ADD_CONSTRAINT| != |ADD_COLUMN|;
    assert |ADD_CONSTRAINT| != |DROP_COLUMN|;
    assert |ADD_CONSTRAINT| != |RENAME_COLUMN|;
    assert |ADD_CONSTRAINT| != |ALTER_TYPE|;
  }

  lemma SelectsDropConstraint()
    ensures OperationOf(DROP_CONSTRAINT) == DropConstraint
  {
    assert |DROP_CONSTRAINT| != |ADD_COLUMN|;
    assert |DROP_CONSTRAINT| != |DROP_COLUMN|;
    assert |DROP_CONSTRAINT| != |RENAME_COLUMN|;
    assert DROP_CONSTRAINT[0] != ALTER_TYPE[0];
    assert |DROP_CONSTRAINT| != |ADD_CONSTRAINT|;
  }

  lemma SelectsRenameTable()
    ensures OperationOf(RENAME_TABLE) == RenameTable
  {
    assert |RENAME_TABLE| != |ADD_COLUMN|;
    assert |RENAME_TABLE| != |DROP_COLUMN|;
    assert RENAME_TABLE[14] != RENAME_COLUMN[14];
    assert |RENAME_TABLE| != |ALTER_TYPE|;
    assert |RENAME_TABLE| != |ADD_CONSTRAINT|;
    assert |RENAME_TABLE| != |DROP_CONSTRAINT|;
  }

  /** Each item of the operation combo selects its own operation. */
  lemma OperationLabelsSelectTheirOperation()
    ensures forall i :: 0 <= i < |OPERATION_LABELS| ==> OperationOf(OPERATION_LABELS[i]) == OPERATIONS[i]
  {
    forall i | 0 <= i < |OPERATION_LABELS| ensures OperationOf(OPERATION_LABELS[i]) == OPERATIONS[i] {
      if i == 0 { assert OPERATION_LABELS[i] == ADD_COLUMN; SelectsAddColumn(); }
      else if i == 1 { assert OPERATION_LABELS[i] == DROP_COLUMN; SelectsDropColumn(); }
      else if i == 2 { assert OPERATION_LABELS[i] == RENAME_COLUMN; SelectsRenameColumn(); }
      else if i == 3 { assert OPERATION_LABELS[i] == ALTER_TYPE; SelectsAlterType(); }
      else if i == 4 { assert OPERATION_LABELS[i] == ADD_CONSTRAINT; SelectsAddConstraint(); }
      else if i == 5 { assert OPERATION_LABELS[i] == DROP_CONSTRAINT; SelectsDropConstraint(); }
      else { assert OPERATION_LABELS[i] == RENAME_TABLE; SelectsRenameTable(); }
    }
  }

  /**
    The dialog's state: the operation text, the table field, and the operation's
    widgets by their key in `dynamic_widgets` — each line edit's or combo box's
    text, and each check box's state.
   */
  datatype AlterForm = AlterForm(
    operation: string,
    tableText: string,
    texts: map<string, string>,
    checks: map<string, bool>)

  /** `dynamic_widgets.get(key, QLineEdit()).text()`: a widget the form lacks reads as empty. */
  function TextOf(f: AlterForm, key: string): string {
    if key in f.texts then f.texts[key] else ""
  }

  /** The stripped text of a line edit. */
  function FieldOf(f: AlterForm, key: string): string {
    Strip(TextOf(f, key))
  }

  /** `dynamic_widgets.get('not_null', QCheckBox()).isChecked()` */
  function CheckedOf(f: AlterForm, key: string): bool {
    key in f.checks && f.checks[key]
  }

  /** `ALTER TABLE ddos.<table> `: the beginning of every statement. */
  function Head(table: string): string {
    "ALTER TABLE " + SCHEMA + "." + table + " "
  }

  function AddColumnTail(name: string, colType: string, notNull: bool): Option<string> {
    if name == "" || colType == "" then None
    else
      var sql := "ADD COLUMN " + name + " " + colType;
      Some(if notNull then sql + " NOT NULL" else sql)
  }

  function DropColumnTail(name: string): Option<string> {
    if name == "" then None else Some("DROP COLUMN " + name)
  }

  function RenameColumnTail(oldName: string, newName: string): Option<string> {
    if oldName == "" || newName == "" then None
    else Some("RENAME COLUMN " + oldName + " TO " + newName)
  }

  function AlterTypeTail(name: string, newType: string): Option<string> {
    if name == "" || newType == "" then None
    else Some("ALTER COLUMN " + name + " TYPE " + newType)
  }

  /**
    The constraint variants: NOT NULL alters the column the definition names, the other
    three add a named constraint; an unlisted constraint type builds nothing.
   */
  function AddConstraintTail(name: string, kind: string, def: string): Option<string> {
    if name == "" then None
    else if def == "" then None
    else if kind == "NOT NULL" then Some("ALTER COLUMN " + def + " SET NOT NULL")
    else if kind == "CHECK" then Some("ADD CONSTRAINT " + name + " CHECK (" + def + ")")
    else if kind == "UNIQUE" then Some("ADD CONSTRAINT " + name + " UNIQUE (" + def + ")")
    else if kind == "FOREIGN KEY" then Some("ADD CONSTRAINT " + name + " FOREIGN KEY " + def)
    else None
  }

  function DropConstraintTail(name: string): Option<string> {
    if name == "" then None else Some("DROP CONSTRAINT " + name)
  }

  function RenameTableTail(newName: string): Option<string> {
    if newName == "" then None else Some("RENAME TO " + newName)
  }

  /** What follows the head in the statement of one operation, read from the operation's widgets. */
  function TailFor(op: Operation, f: AlterForm): Option<string> {
    match op
    case AddColumn => AddColumnTail(FieldOf(f, "column_name"), FieldOf(f, "column_type"), CheckedOf(f, "not_null"))
    case DropColumn => DropColumnTail(FieldOf(f, "column_name"))
    case RenameColumn => RenameColumnTail(FieldOf(f, "old_name"), FieldOf(f, "new_name"))
    case AlterType => AlterTypeTail(FieldOf(f, "column_name"), FieldOf(f, "new_type"))
    case AddConstraint => AddConstraintTail(FieldOf(f, "constraint_name"), TextOf(f, "constraint_type"), FieldOf(f, "constraint_def"))
    case DropConstraint => DropConstraintTail(FieldOf(f, "constraint_name"))
    case RenameTable => RenameTableTail(FieldOf(f, "new_name"))
    case UnknownOperation => None
  }

  /** The statement of operation `op`: nothing for a blank table field, else the head and the operation's part. */
  function BuildFor(op: Operation, f: AlterForm): (r: Option<string>)
    ensures Strip(f.tableText) == "" ==> r.None?
    ensures op == UnknownOperation ==> r.None?
    ensures r.Some? ==> StartsWith(r.value, Head(Strip(f.tableText)))
  {
    var table := Strip(f.tableText);
    if table == "" then None
    else
      match TailFor(op, f)
      case None => None
      case Some(tail) =>
        assert (Head(table) + tail)[..|Head(table)|] == Head(table);
        Some(Head(table) + tail)
  }

  /** `build_sql`: the statement of the operation the combo names. */
  function BuildSql(f: AlterForm): Option<string> {
    BuildFor(OperationOf(f.operation), f)
  }

  /** Which fields each operation cannot do without: with a non-blank table, it builds exactly when they are filled. */
  function Required(op: Operation, f: AlterForm): bool {
    match op
    case AddColumn => FieldOf(f, "column_name") != "" && FieldOf(f, "column_type") != ""
    case DropColumn => FieldOf(f, "column_name") != ""
    case RenameColumn => FieldOf(f, "old_name") != "" && FieldOf(f, "new_name") != ""
    case AlterType => FieldOf(f, "column_name") != "" && FieldOf(f, "new_type") != ""
    case AddConstraint =>
      && FieldOf(f, "constraint_name") != "" && FieldOf(f, "constraint_def") != ""
      && TextOf(f, "constraint_type") in {"NOT NULL", "CHECK", "UNIQUE", "FOREIGN KEY"}
    case DropConstraint => FieldOf(f, "constraint_name") != ""
    case RenameTable => FieldOf(f, "new_name") != ""
    case UnknownOperation => false
  }

  /** Each missing required field (or an unlisted constraint type) yields no statement, and nothing else does. */
  lemma BuildIffRequired(op: Operation, f: AlterForm)
    ensures BuildFor(op, f).Some? <==> Strip(f.tableText) != "" && Required(op, f)
  {
    BuildForTail(op, f);
    TailIffRequired(op, f);
  }

  /** An operation's part is there exactly when its required fields are filled. */
  lemma TailIffRequired(op: Operation, f: AlterForm)
    ensures TailFor(op, f).Some? <==> Required(op, f)
  {
    match op
    case AddConstraint =>
      var name, kind, def := FieldOf(f, "constraint_name"), TextOf(f, "constraint_type"), FieldOf(f, "constraint_def");
      if name != "" && def != "" {
        ConstraintTypes(name, kind, def);
      }
    case _ =>
  }

  /** A statement is the head followed by the operation's part. */
  lemma BuildForTail(op: Operation, f: AlterForm)
    ensures BuildFor(op, f) == if Strip(f.tableText) == "" || TailFor(op, f).None? then None
                               else Some(Head(Strip(f.tableText)) + TailFor(op, f).value)
  {
  }

  /** Ticking NOT NULL appends ` NOT NULL` to the ADD COLUMN statement and changes nothing else. */
  lemma NotNullAppended(f: AlterForm)
    requires BuildFor(AddColumn, f).Some?
    ensures BuildFor(AddColumn, f.(checks := f.checks["not_null" := true]))
            == Some(BuildFor(AddColumn, f.(checks := f.checks["not_null" := false])).value + " NOT NULL")
  {
    var on, off := f.(checks := f.checks["not_null" := true]), f.(checks := f.checks["not_null" := false]);
    var name, colType := FieldOf(f, "column_name"), FieldOf(f, "column_type");
    var sql := "ADD COLUMN " + name + " " + colType;
    BuildForTail(AddColumn, f);
    BuildForTail(AddColumn, on);
    BuildForTail(AddColumn, off);
    assert TailFor(AddColumn, f) == AddColumnTail(name, colType, CheckedOf(f, "not_null"));
    assert TailFor(AddColumn, on) == AddColumnTail(FieldOf(on, "column_name"), FieldOf(on, "column_type"), CheckedOf(on, "not_null"));
    assert TailFor(AddColumn, off) == AddColumnTail(FieldOf(off, "column_name"), FieldOf(off, "column_type"), CheckedOf(off, "not_null"));
    assert FieldOf(on, "column_name") == name && FieldOf(off, "column_name") == name;
    assert FieldOf(on, "column_type") == colType && FieldOf(off, "column_type") == colType;
    ConcatAssoc(Head(Strip(f.tableText)), sql, " NOT NULL");
  }

  /** The constraint widgets' keys are different keys. */
  lemma ConstraintKeysDistinct()
    ensures "constraint_name" != "constraint_type" && "constraint_name" != "constraint_def"
  {
    assert "constraint_name"[11] != "constraint_type"[11];
  }

  /** Another line edit's text is untouched when one widget's text changes. */
  lemma TextOfOther(f: AlterForm, key: string, text: string, other: string)
    requires other != key
    ensures TextOf(f.(texts := f.texts[key := text]), other) == TextOf(f, other)
  {
  }

  /** The NOT NULL constraint needs a constraint name but does not use it: any other name gives the same statement. */
  lemma NotNullConstraintIgnoresName(f: AlterForm, other: string)
    requires TextOf(f, "constraint_type") == "NOT NULL"
    requires FieldOf(f, "constraint_name") != "" && Strip(other) != ""
    ensures BuildFor(AddConstraint, f.(texts := f.texts["constraint_name" := other])) == BuildFor(AddConstraint, f)
  {
    var g := f.(texts := f.texts["constraint_name" := other]);
    ConstraintKeysDistinct();
    TextOfOther(f, "constraint_name", other, "constraint_type");
    TextOfOther(f, "constraint_name", other, "constraint_def");
    var kind, def := TextOf(f, "constraint_type"), FieldOf(f, "constraint_def");
    assert TextOf(g, "constraint_name") == other;
    assert TailFor(AddConstraint, f) == AddConstraintTail(FieldOf(f, "constraint_name"), kind, def);
    assert TailFor(AddConstraint, g) == AddConstraintTail(Strip(other), kind, def);
    BuildForTail(AddConstraint, f);
    BuildForTail(AddConstraint, g);
  }

  /** Without a constraint name no constraint statement is built, not even NOT NULL's, which does not use it. */
  lemma ConstraintNeedsName(f: AlterForm)
    requires FieldOf(f, "constraint_name") == ""
    ensures BuildFor(AddConstraint, f).None?
  {
    assert TailFor(AddConstraint, f) == AddConstraintTail(FieldOf(f, "constraint_name"), TextOf(f, "constraint_type"), FieldOf(f, "constraint_def"));
  }

  /**
    With a name and a definition, the four listed constraint types build a statement and
    no other type does; NOT NULL alters the defined column, the others add a constraint
    under the given name.
   */
  lemma ConstraintTypes(name: string, kind: string, def: string)
    requires name != "" && def != ""
    ensures AddConstraintTail(name, kind, def).Some? <==> kind in {"NOT NULL", "CHECK", "UNIQUE", "FOREIGN KEY"}
    ensures kind == "NOT NULL" ==> AddConstraintTail(name, kind, def) == Some("ALTER COLUMN " + def + " SET NOT NULL")
    ensures kind != "NOT NULL" && AddConstraintTail(name, kind, def).Some? ==>
              StartsWith(AddConstraintTail(name, kind, def).value, "ADD CONSTRAINT " + name + " " + kind + " ")
  {
    var r := AddConstraintTail(name, kind, def);
    if kind == "CHECK" {
      assert r.value == "ADD CONSTRAINT " + name + " CHECK (" + def + ")";
      assert r.value == ("ADD CONSTRAINT " + name + " " + kind + " ") + ("(" + def + ")");
    } else if kind == "UNIQUE" {
      assert r.value == ("ADD CONSTRAINT " + name + " " + kind + " ") + ("(" + def + ")");
    } else if kind == "FOREIGN KEY" {
      assert r.value == ("ADD CONSTRAINT " + name + " " + kind + " ") + def;
    }
  }

  /** `execute`: the database receives the built statement, and a warning is shown when there is none. */
  function ExecuteAlter(f: AlterForm): (r: Action)
    ensures r.Execute? <==> BuildSql(f).Some?
    ensures r.Execute? ==> r.sql == BuildSql(f).value
    ensures r.Warn? <==> BuildSql(f).None?
    ensures r.Warn? ==> r.message == FILL_ALL_FIELDS
  {
    match BuildSql(f)
    case None => Warn(FILL_ALL_FIELDS)
    case Some(sql) => Execute(sql)
  }
}
