# db-kr SQL builders in Dafny

db-kr is a PySide6 desktop client for a PostgreSQL schema `ddos`. Its dialogs read
form widgets and assemble SQL text, which is handed to the database driver. This
project models that form-state → SQL-text core and proves what each builder
produces. It covers:

- the identifier and literal encoders (`quote_ident`, `format_literal`,
  `qualify_column`) and the composite-literal encoder of the record-entry dialog;
- the builders of the advanced-query dialog: SELECT constructor, text search,
  string functions, JOIN, CASE, COALESCE/NULLIF, and the grid results are shown in;
- the subquery filter of the view dialog and the form rows each filter mode shows;
- the seven ALTER TABLE statements and the guard of the ALTER dialog;
- the user-defined type dialog: the kind column, the ENUM and composite grids with
  their add/delete buttons, and the two CREATE TYPE statements;
- the filtered `get_data` query with its parameter list, the SELECT-or-command
  decision of `execute_custom_query`, and the attack-type ENUM of `create_schema`.

Widgets become plain values. A line edit is a `string`. A combo box's
`currentData()` is an `Option<string>`; Python truthiness of it is `Truthy`. A
button press becomes an `Action`:

- `Execute(sql)`: the statement handed to the database;
- `Warn(message)`: the warning box shown instead;
- `Raise`: the case where the source calls `quote_ident(None)` and raises.

Python's `str` operations are written out in `Text`:

- `strip` uses Python's `isspace` set;
- `in` between strings is `Contains`;
- `join` is `Join`, and `split(' ')[0]` is `FirstWord`;
- `replace` for doubling is `Double`;
- `upper` and `isdigit` are on ASCII.

Each encoder has a reader that takes its output apart again, so that its promise can
be stated as a round trip. `SqlText.ReadQuoted` reads a delimited identifier or string
literal (ISO/IEC 9075-2, sections 5.2 and 5.3). `Composite.RecordIn` reads a composite
literal the way PostgreSQL's record input does (PostgreSQL documentation, section
8.16.6).

Files: `wrappers.dfy` (Option, Result), `text.dfy` (module `Text`), `sql_text.dfy`
(`SqlText`), `composite.dfy` (`Composite`), `input_dialog.dfy` (`InputDialog`),
`view_dialog.dfy` (`ViewDialog`), `advanced_view.dfy` (`AdvancedView`),
`alter_dialog.dfy` (`AlterDialog`), `types_dialog.dfy` (`TypesDialog`), `db.dfy` (`Db`).

Where the source changes state step by step, the model does too:

- `build_select_query` and `get_data` grow a query with `+=`;
- the save loop, `build_subquery_condition`, `execute_case`, `create_enum` and
  `create_composite` loop and append;
- the result grid, the subquery panel and the type grids are classes whose methods
  update fields or an array.

Each such method is proved equal to a specification function, and the properties are
proved about that function.

## Model

| member | source | states |
|---|---|---|
| SqlText.QuoteIdent | advanced_view_dialog.py:13-15 | the identifier starts and ends with `"` |
| SqlText.QuoteIdentReadBack | advanced_view_dialog.py:13-15 | reading a quoted identifier back (a doubled `"` is one `"`, a single one ends it) gives the name and the text after it |
| SqlText.QuoteIdentInjective | gui.py:531-532 | two names with the same quoted identifier are the same name |
| SqlText.QuoteString | gui.py:548 | the string literal starts and ends with `'` |
| SqlText.QuoteStringReadBack | gui.py:548 | reading the literal back (a doubled `'` is one `'`) gives the text and what follows |
| SqlText.ReadDoubledBody | gui.py:548 | a doubled text followed by one closing quote reads back as the text |
| SqlText.OrDefault | advanced_view_dialog.py:495 | `currentData() or "experiments"`: the data when truthy, else the default |
| SqlText.TableSqlReadBack | advanced_view_dialog.py:496 | after any prefix, `ddos.` and the quoted table read back as the table name and the rest of the statement |
| SqlText.QualifyColumn | gui.py:534-535 | a qualified column starts with `ddos."` |
| SqlText.QualifyColumnInjective | gui.py:534-535 | a qualified column names exactly one table and one column |
| SqlText.NumberNotQuoted | gui.py:541-546 | a text that passes the number test is non-empty and does not start with `'` |
| SqlText.FormatLiteralReadBack | gui.py:537-548 | the literal stands for exactly the stripped input: reading it back (a bare token as it is, a quoted one with `''` as `'`) gives the stripped text, `''` giving the empty text |
| SqlText.FormatLiteralInjective | gui.py:537-548 | inputs with the same literal have the same stripped text |
| SqlText.FormatLiteralBareIffNumber | gui.py:541-548 | the stripped input is returned unchanged iff it is non-empty and passes the float test (with `.`) or the int test (without) |
| SqlText.EnumLabelList | types_dialog.py:174-175 | the ENUM label list starts with `('` and ends with `')` |
| SqlText.EnumLabelListReadBack | db.py:77-79 | for labels without `'`, the list cuts back into the labels in order |
| Composite.EncodeFieldAsWritten | gui.py:229-230 | as written, a sub-field is put in `"` iff it holds `,` `(` `)` `"` `\` or a space |
| Composite.EncodeField | gui.py:229-230 | the corrected encoder quotes exactly the same sub-fields |
| Composite.AsWrittenAgreesWithoutBackslash | gui.py:229-230 | without a backslash the corrected encoder is the encoder as written |
| Composite.StrippedFields | gui.py:225 | one stripped text per sub-field |
| Composite.EncodeAll | gui.py:224-231 | one encoded part per sub-field |
| Composite.EncodeAllAsWritten | gui.py:224-231 | one part per sub-field, encoded as written |
| Composite.CompositeValue | gui.py:222-237 | none iff every sub-field is blank; otherwise the value is `(…)` |
| Composite.CompositeValueAsWritten | gui.py:222-237 | as written: none iff every sub-field is blank |
| Composite.CompositeAgreesWithoutBackslash | gui.py:222-237 | when no stripped sub-field holds a backslash, the literal as written is the corrected literal |
| Composite.BuildCompositeValue | gui.py:222-237 | the sub-field loop (the `parts` list and the `all_empty` flag) computes `CompositeValueAsWritten`, the literal the program builds |
| Composite.ScanField | gui.py:229-230 | the scanner of one sub-field stops at a `,` or `)` outside quotes and makes progress |
| Composite.ReadField | gui.py:237 | reading a sub-field leaves a delimiter first |
| Composite.ScanPlain | gui.py:231 | an unquoted sub-field scans as itself |
| Composite.ScanEscaped | gui.py:230 | the body of a corrected quoted sub-field scans back as the sub-field |
| Composite.ReadQuotedField | gui.py:230 | a quoted corrected sub-field reads back as its text |
| Composite.ReadPlainField | gui.py:231 | an unquoted sub-field reads back as itself |
| Composite.ReadEncodedField | gui.py:229-231 | every corrected sub-field reads back as its value (empty as NULL) |
| Composite.FieldValues | gui.py:225-231 | one stored value per sub-field |
| Composite.ReadEncodedFields | gui.py:237 | the comma-joined corrected parts read back as the sub-fields' values, in order |
| Composite.CompositeValueReadBack | gui.py:222-237 | the corrected composite literal reads back, through PostgreSQL's record input, as the stripped sub-fields (empty as NULL) |
| Composite.BackslashSentAsWritten | gui.py:229-237 | as written, the sub-field `a\b` is sent as `("a\b")` |
| Composite.BackslashLostOnRead | gui.py:229-237 | PostgreSQL reads `("a\b")` as the one field `ab`, so the encoding as written loses the backslash |
| InputDialog.WidgetValue | gui.py:216-259 | a composite group gives none iff all sub-fields are blank, else the composite literal as the program writes it; a line edit gives none iff blank, else the stripped text; a combo gives its data for `auxiliary_id`, else its text |
| InputDialog.DataOf | gui.py:265 | the collected row has exactly the dialog's columns as keys |
| InputDialog.ErrorsOf | gui.py:262-263 | the only error ever recorded is the missing-name one |
| InputDialog.Save | gui.py:206-271 | the save loop yields no action without a table, the errors when there are any, else the insert of the collected row |
| InputDialog.ErrorsOfEmpty | gui.py:262-263 | there are no errors iff no column is a `name` column with a falsy value |
| InputDialog.NameRequired | gui.py:262-269 | with a table chosen, saving is refused iff some `name` column is falsy, and inserts otherwise |
| InputDialog.DataOfColumns | gui.py:265 | with distinct column names, each column maps to its own widget's value |
| InputDialog.CompositeColumnReadBack | gui.py:222-237 | a composite column whose sub-fields hold no backslash reads back as its stripped sub-fields |
| ViewDialog.ModeKeyword | gui.py:570-591 | every filter mode puts a non-empty keyword into the condition |
| ViewDialog.FilterConditions | gui.py:563-568 | the subquery's own filter contributes at most one conjunct |
| ViewDialog.SubqueryCondition | gui.py:550-591 | no condition iff no mode, no subquery table or column, no outer column, or (EXISTS modes) no link column |
| ViewDialog.BuildSubqueryCondition | gui.py:550-591 | the method with its `where_parts` list (append, then insert at 0) computes `SubqueryCondition` |
| ViewDialog.ExistsConjuncts | gui.py:563-581 | EXISTS/NOT EXISTS: the link equality is the first conjunct, then the filter if both its column and value are given, joined with ` AND ` |
| ViewDialog.ExistsWhereNeverTrue | gui.py:579 | in EXISTS modes the conjunct list is never empty, so the `TRUE` fallback is never used |
| ViewDialog.CompareShape | gui.py:586-591 | ANY/ALL: `<qualified outer> <op> <ANY or ALL> (SELECT "<col>" FROM ddos."<t>"[ WHERE …])`, with no WHERE without a filter |
| ViewDialog.SubqueryPanel.constructor | gui.py:477-524 | the panel starts with every row visible |
| ViewDialog.SubqueryPanel.ShowRow | gui.py:512-524 | showing a row makes it visible and leaves every other row as it was |
| ViewDialog.SubqueryPanel.UpdateControls | gui.py:477-524 | row 0 is untouched; each other row ends visible exactly as `RowShown` says: rows 3, 6, 7, 8 for any mode, plus 1, 2, 4 for ANY/ALL, plus 1, 5 for EXISTS modes, none without a mode |
| AdvancedView.QuoteRaw | advanced_view_dialog.py:507 | the value is wrapped in `'` with its inside unchanged (nothing escaped) |
| AdvancedView.WhereValue | advanced_view_dialog.py:504-507 | the WHERE value stays bare iff it passes the float test |
| AdvancedView.HavingValue | advanced_view_dialog.py:522-523 | the HAVING value stays bare iff, with its first `.` removed, it is a non-empty run of digits |
| AdvancedView.SelectColumns | advanced_view_dialog.py:491-493 | blank column text selects `*`; otherwise the stripped text |
| AdvancedView.ClausesFrom | advanced_view_dialog.py:498-530 | the clauses come in strictly increasing order WHERE, GROUP BY, HAVING, ORDER BY, so each appears at most once |
| AdvancedView.SelectClausesPresence | advanced_view_dialog.py:499-530 | each clause is present exactly when the form asks for it (WHERE: column and stripped value given; GROUP BY: column; HAVING: stripped value; ORDER BY: column) |
| AdvancedView.PieceTexts | advanced_view_dialog.py:508-530 | each clause's text, with DESC iff the direction label contains `DESC` |
| AdvancedView.SelectQueryPieces | advanced_view_dialog.py:496-530 | the query is the head followed by the four optional clause texts in order |
| AdvancedView.RenderConcat | advanced_view_dialog.py:508-530 | the text of a clause list is the text of its first part followed by that of the rest, so each appended clause adds exactly its own text |
| AdvancedView.BuildSelectQuery | advanced_view_dialog.py:488-532 | the `+=` method produces the head followed by the rendered clauses |
| AdvancedView.SelectHeadReadBack | advanced_view_dialog.py:491-530 | the query opens `SELECT <cols> FROM ddos.`; the chosen table, `experiments` by default, reads back after it, followed by exactly the rendered clauses |
| AdvancedView.AscLabelSortsAscending | advanced_view_dialog.py:529 | the ascending label gives ASC |
| AdvancedView.DescLabelSortsDescending | advanced_view_dialog.py:529 | the descending label gives DESC |
| AdvancedView.SearchLabelsSelectTheirOperator | advanced_view_dialog.py:554-567 | each of the eight search labels selects the operator named at its start: LIKE, ILIKE, ~, ~*, !~, !~*, SIMILAR TO, NOT SIMILAR TO |
| AdvancedView.SearchLike | advanced_view_dialog.py:556 | the LIKE label selects LIKE |
| AdvancedView.SearchIlike | advanced_view_dialog.py:556-557 | the ILIKE label selects ILIKE |
| AdvancedView.SearchRegex | advanced_view_dialog.py:558-562 | the POSIX label selects `~` |
| AdvancedView.SearchRegexCi | advanced_view_dialog.py:558-561 | the case-blind POSIX label selects `~*` |
| AdvancedView.SearchNotRegex | advanced_view_dialog.py:558-560 | the negated POSIX label selects `!~` |
| AdvancedView.SearchNotRegexCi | advanced_view_dialog.py:558-559 | the negated case-blind POSIX label selects `!~*` |
| AdvancedView.SearchSimilar | advanced_view_dialog.py:563-567 | the SIMILAR TO label selects SIMILAR TO |
| AdvancedView.SearchNotSimilar | advanced_view_dialog.py:563-565 | the NOT SIMILAR TO label selects NOT SIMILAR TO |
| AdvancedView.SearchAction | advanced_view_dialog.py:544-577 | a blank pattern warns (and only then); with a pattern and no column `quote_ident` raises; otherwise the search statement with the chosen operator and the pattern quoted raw |
| AdvancedView.SearchSqlReadBack | advanced_view_dialog.py:575-577 | the table and the column read back out of the search statement |
| AdvancedView.SearchNeedsPattern | advanced_view_dialog.py:550-552 | no search runs without a non-blank pattern and a column |
| AdvancedView.StringLabelsSelectTheirFunction | advanced_view_dialog.py:599-626 | each string-function label selects the function it names |
| AdvancedView.StringUpper | advanced_view_dialog.py:599-600 | the UPPER label selects UPPER |
| AdvancedView.StringLower | advanced_view_dialog.py:599-602 | the LOWER label selects LOWER |
| AdvancedView.StringTrim | advanced_view_dialog.py:599-609 | the TRIM label selects TRIM |
| AdvancedView.StringSubstring | advanced_view_dialog.py:599-607 | the SUBSTRING label selects SUBSTRING |
| AdvancedView.StringConcat | advanced_view_dialog.py:599-626 | the CONCAT label selects CONCAT |
| AdvancedView.StringLpad | advanced_view_dialog.py:599-615 | the LPAD label selects LPAD |
| AdvancedView.StringRpad | advanced_view_dialog.py:599-621 | the RPAD label selects RPAD |
| AdvancedView.PadArgument | advanced_view_dialog.py:614-620 | the pad character defaults to `' '`; a given one is quoted raw |
| AdvancedView.ConcatArguments | advanced_view_dialog.py:623-626 | CONCAT's arguments are the column, then each given parameter quoted raw |
| AdvancedView.StringExpression | advanced_view_dialog.py:597-626 | a recognised function gives `NAME(…)`; none gives the raw column name |
| AdvancedView.StringsAction | advanced_view_dialog.py:585-629 | a missing parameter warns with its message (and only then); then a missing column raises; otherwise the strings statement |
| AdvancedView.SubstringNeedsStartAndLength | advanced_view_dialog.py:605-609 | with the SUBSTRING label, the action warns `Укажите начало и длину` iff the start or the length is blank after stripping |
| AdvancedView.PadNeedsLength | advanced_view_dialog.py:612-623 | with the LPAD or RPAD label, the action warns `Укажите длину` iff the length is blank after stripping |
| AdvancedView.OtherFunctionsNeedNoParameters | advanced_view_dialog.py:599-631 | with the UPPER, LOWER, TRIM or CONCAT label, the action never warns, whatever the parameters |
| AdvancedView.StringsSqlReadBack | advanced_view_dialog.py:629 | the column and the table read back out of the strings statement |
| AdvancedView.PadDefaultsToBlank | advanced_view_dialog.py:614-621 | a pad call ends `, ' ')` without a second parameter, else with it quoted |
| AdvancedView.JoinKeyword | advanced_view_dialog.py:640-642 | the join keyword ends ` JOIN`; FULL in the label forces `FULL JOIN`; otherwise the label's first word + ` JOIN` |
| AdvancedView.JoinKeywordOfWord | advanced_view_dialog.py:641 | a label without FULL whose first word is `w` gives `w JOIN` |
| AdvancedView.JoinLabelsSelectTheirKeyword | advanced_view_dialog.py:640-642 | the four JOIN labels give INNER JOIN, LEFT JOIN, RIGHT JOIN and FULL JOIN |
| AdvancedView.JoinInner | advanced_view_dialog.py:640-642 | the INNER label gives INNER JOIN |
| AdvancedView.JoinLeft | advanced_view_dialog.py:640-642 | the LEFT label gives LEFT JOIN |
| AdvancedView.JoinRight | advanced_view_dialog.py:640-642 | the RIGHT label gives RIGHT JOIN |
| AdvancedView.JoinFull | advanced_view_dialog.py:640-642 | the FULL label gives FULL JOIN |
| AdvancedView.JoinAction | advanced_view_dialog.py:637-664 | the join never raises; it warns iff a table or a link field is missing, with the table message first; a statement starts `SELECT ` |
| AdvancedView.JoinColumns | advanced_view_dialog.py:648-659 | the column list of a join is the stripped text, or `*` when that is blank; it is never empty |
| AdvancedView.JoinReadBack | advanced_view_dialog.py:648-664 | the join statement opens `SELECT <columns> FROM ddos.`; the first table reads back after it, followed by the join keyword, the second table and the ON condition |
| AdvancedView.NullCallArguments | advanced_view_dialog.py:713-724 | an accepted expression reads back as a call of the function the label names, the first argument right after `(`, the second (when given) last |
| AdvancedView.NullQueryReadBack | advanced_view_dialog.py:702-726 | the statement opens `SELECT *, `, then holds the accepted expression; the chosen table reads back at its end |
| AdvancedView.NullArguments | advanced_view_dialog.py:709-724 | COALESCE is built iff the first argument is given; NULLIF iff both are |
| AdvancedView.CaseArms | advanced_view_dialog.py:676-683 | there are never more arms than rows |
| AdvancedView.ElsePart | advanced_view_dialog.py:689-690 | ELSE appears iff the stripped else text is non-empty |
| AdvancedView.CaseAction | advanced_view_dialog.py:672-694 | warns iff no row contributes an arm; then a missing table raises; otherwise the CASE statement |
| AdvancedView.ExecuteCase | advanced_view_dialog.py:672-694 | the loop over the rows appending to `cases` computes `CaseAction` |
| AdvancedView.CaseArmsFromRows | advanced_view_dialog.py:677-683 | every arm comes from a row with both items and a non-blank WHEN text |
| AdvancedView.CaseArmOfRow | advanced_view_dialog.py:677-683 | every such row contributes its arm |
| AdvancedView.CaseArmsAppend | advanced_view_dialog.py:677-683 | the arms of two row blocks are the arms of each, in row order |
| AdvancedView.CaseNeedsAnArm | advanced_view_dialog.py:685-687 | the CASE warning is shown iff no row contributes |
| AdvancedView.CaseQueryReadBack | advanced_view_dialog.py:694 | the table reads back out of the CASE statement |
| AdvancedView.HeaderLabels | advanced_view_dialog.py:743-748 | the headers are the driver's column names, or `Столбец 1…n` for the first record's width |
| AdvancedView.NumberedHeadersDistinct | advanced_view_dialog.py:748 | numbered headers of different columns differ |
| AdvancedView.Within | advanced_view_dialog.py:737-752 | shrinking the grid keeps exactly the cells inside it, unchanged |
| AdvancedView.WriteRecordCell | advanced_view_dialog.py:756-757 | writing a record sets its cells (NULL as empty text) and keeps the others |
| AdvancedView.WriteRecordsCell | advanced_view_dialog.py:755-757 | writing the records sets each given cell inside the grid and keeps the others |
| AdvancedView.ResultGrid.SetColumnCount | advanced_view_dialog.py:750 | the column count is set, headers are cut or padded with the default ones, cells outside are dropped |
| AdvancedView.ResultGrid.SetRowCount | advanced_view_dialog.py:752 | the row count is set and cells outside are dropped |
| AdvancedView.ResultGrid.SetHeaderLabels | advanced_view_dialog.py:751 | with at least as many labels as columns the headers are the first labels; with fewer, the labels replace the first headers and the rest stay; nothing else changes |
| AdvancedView.ResultGrid.SetItem | advanced_view_dialog.py:757 | one cell is written if it lies inside the grid |
| AdvancedView.ResultGrid.DisplayResults | advanced_view_dialog.py:734-757 | no data: no rows, one column headed `Нет данных`, no cells; otherwise the column count, the headers, one row per record and every record's cells written |
| AdvancedView.ResultGrid.WriteRow | advanced_view_dialog.py:756-757 | a record's values land in its row, one column each, left to right; values past the last column are dropped and every other cell is kept |
| AdvancedView.DisplayedCell | advanced_view_dialog.py:734-757 | after display, a cell inside the grid within its record's width shows that value; nothing lies outside the grid |
| AlterDialog.OperationLabelsSelectTheirOperation | alter_dialog.py:133-199 | each of the seven operation labels selects its own statement |
| AlterDialog.SelectsAddColumn | alter_dialog.py:133 | the add-column label selects ADD COLUMN |
| AlterDialog.SelectsDropColumn | alter_dialog.py:144 | the drop-column label selects DROP COLUMN |
| AlterDialog.SelectsRenameColumn | alter_dialog.py:150 | the rename-column label selects RENAME COLUMN |
| AlterDialog.SelectsAlterType | alter_dialog.py:157 | the change-type label selects ALTER COLUMN … TYPE |
| AlterDialog.SelectsAddConstraint | alter_dialog.py:164 | the add-constraint label selects the constraint statements |
| AlterDialog.SelectsDropConstraint | alter_dialog.py:189 | the drop-constraint label selects DROP CONSTRAINT |
| AlterDialog.SelectsRenameTable | alter_dialog.py:195 | the rename-table label selects RENAME TO |
| AlterDialog.BuildFor | alter_dialog.py:123-201 | nothing for a blank table or an unrecognised operation; every statement begins `ALTER TABLE ddos.<table> `, the table inserted as typed |
| AlterDialog.BuildIffRequired | alter_dialog.py:126-199 | with a non-blank table, each operation builds exactly when its required fields are non-blank (and, for constraints, the type is one of the four) |
| AlterDialog.TailIffRequired | alter_dialog.py:133-199 | the text after `ALTER TABLE` exists exactly when the chosen operation's required fields are given |
| AlterDialog.NotNullAppended | alter_dialog.py:139-142 | ticking NOT NULL appends ` NOT NULL` to the ADD COLUMN statement and changes nothing else |
| AlterDialog.ConstraintTypes | alter_dialog.py:170-187 | with a name and definition, exactly the four listed types build; NOT NULL gives `ALTER COLUMN <def> SET NOT NULL`; the others add a constraint under the given name and type |
| AlterDialog.ConstraintNeedsName | alter_dialog.py:168-169 | no constraint statement without a constraint name, even for NOT NULL |
| AlterDialog.NotNullConstraintIgnoresName | alter_dialog.py:170-174 | the NOT NULL statement does not depend on which constraint name is given |
| AlterDialog.TextOfOther | alter_dialog.py:165-167 | changing one line edit leaves the others' text alone |
| AlterDialog.ExecuteAlter | alter_dialog.py:211-218 | the database gets the built statement exactly when there is one; otherwise `Заполните все поля` is shown |
| TypesDialog.KindLabel | types_dialog.py:92 | `e` maps to `ENUM`, every other code to `Составной (Composite)` |
| TypesDialog.RemoveAt | types_dialog.py:151-154 | removing an existing row gives one row fewer, the others kept in order; any other index changes nothing |
| TypesDialog.EnumValueGrid.constructor | types_dialog.py:128 | the ENUM grid starts without rows |
| TypesDialog.EnumValueGrid.AddRow | types_dialog.py:146-149 | exactly one row is added, at the end, holding `VALUE` |
| TypesDialog.EnumValueGrid.DeleteRow | types_dialog.py:151-154 | the current row is removed when there is one; the others stay in order |
| TypesDialog.EnumValues | types_dialog.py:159-163 | no more values than rows, and no value is blank |
| TypesDialog.EnumAction | types_dialog.py:156-175 | a blank name warns first; then no values warns; otherwise `CREATE TYPE ddos."<name>" AS ENUM (…)` of the values |
| TypesDialog.EnumValueGrid.CreateEnum | types_dialog.py:156-175 | the loop collecting the values, then the checks, computes `EnumAction` |
| TypesDialog.EnumValuesFromItems | types_dialog.py:160-163 | every value is the stripped text of some row's item |
| TypesDialog.EnumValueOfItem | types_dialog.py:160-163 | every row with a non-blank item gives its stripped text as a value |
| TypesDialog.EnumValuesPrefix | types_dialog.py:160-163 | a later row never removes an earlier value |
| TypesDialog.EnumQueryReadBack | types_dialog.py:174-175 | for values without `'`, the list in the statement cuts back into the values in order |
| TypesDialog.CompositeFieldGrid.constructor | types_dialog.py:197 | the composite grid starts without rows |
| TypesDialog.CompositeFieldGrid.AddRow | types_dialog.py:215-224 | exactly one row is added, at the end, named `field_name` with type `integer` |
| TypesDialog.CompositeFieldGrid.DeleteRow | types_dialog.py:226-229 | the current row is removed when there is one; the others stay in order |
| TypesDialog.CompositeFields | types_dialog.py:238-247 | no more fields than rows |
| TypesDialog.CompositeAction | types_dialog.py:231-254 | a blank name warns first; then no fields warns; otherwise `CREATE TYPE ddos."<name>" AS (\n…\n)` of the fields |
| TypesDialog.CompositeFieldGrid.CreateComposite | types_dialog.py:231-254 | the name check, then the loop collecting the fields, computes `CompositeAction` |
| TypesDialog.CompositeFieldsFromRows | types_dialog.py:239-247 | every field is `name type` of a row with both cells and both texts non-blank |
| TypesDialog.CompositeFieldOfRow | types_dialog.py:239-247 | every such row contributes its field |
| TypesDialog.CompositeFieldsPrefix | types_dialog.py:239-247 | a later row never removes an earlier field |
| TypesDialog.CompositeQueryReadBack | types_dialog.py:253-254 | for single-line fields (commas inside a field, as in `numeric(10,2)`, allowed), the body cuts back at each `,\n` into the fields in order |
| Db.GetDataQuery | db.py:177-196 | the method with `+=` and `append` computes `DataQuery` and `FilterParams` |
| Db.PlaceholdersMatchParams | db.py:177-196 | the query holds exactly as many `%` placeholders as there are parameters |
| Db.DataQueryFramed | db.py:177-196 | the query always starts with the base `SELECT … WHERE 1=1` and ends ` ORDER BY created_at DESC` |
| Db.NoFiltersNoConditions | db.py:180-193 | without filters the query is the base query ordered by date, with no parameters |
| Db.AllFiltersInOrder | db.py:181-193 | with every filter, the conditions and parameters come in the order attack type, from, to |
| Db.DateParamsCoverWholeDays | db.py:185-193 | the from date carries ` 00:00:00`, the to date ` 23:59:59` |
| Db.ConditionHasOnePercent | db.py:181-193 | a condition holds one placeholder |
| Db.ConditionsCount | db.py:177-196 | whichever filters are given, the conditions hold one `%s` placeholder per parameter |
| Db.CustomQueryHandling | db.py:282-291 | rows are fetched (and nothing committed) iff the stripped, upper-cased text starts with `SELECT`; anything else is committed |
| Db.HandlingIgnoresLeadingSpace | db.py:282 | white space before a statement does not change its handling |
| Db.LowerCaseSelectFetches | db.py:282 | a statement starting with `select` in lower case is fetched too |
| Db.OtherStatementsCommit | db.py:282-291 | a statement not starting with `s` or `S` is committed |
| Db.AttackTypeEnumSql | db.py:77-80 | the attack-type ENUM statement starts `CREATE TYPE ddos.attack_type AS ENUM ('` and ends `');` |
| Db.AttackTypeEnumReadBack | db.py:77-79 | for attack types without `'`, the list cuts back into the attack types in order |

## Left out

- Qt construction, layouts, signal wiring and the message boxes themselves. The dialogs' warnings are the `Warn` actions. The `setup_*` and `populate_*` methods, `MainWindow` and `main.py` are not modelled.
- All database I/O is out: connecting, `schema_exists`, running a statement, commit and rollback, and the catalog queries. Only the statements handed to the driver are modelled. This excludes `get_connection`, `insert_data`, `get_table_columns`, `execute_alter_table`, `drop_type` and the `pg_type` query of `refresh_types_list`. It also excludes what `create_schema` does besides declaring the attack-type ENUM: the CREATE SCHEMA and CREATE TABLE statements and the existence check.
- `ATTACK_TYPES` comes from `config.py`, which is not part of this model; the attack types are a parameter.
- `execute_custom_query` is modelled only by its SELECT-or-command decision. Running the statement, fetching rows and reading the cursor description are I/O.
- Python's integer and float parsing is simplified to ASCII digits. `float()` and `int()` become `IsFloatLiteral`/`IsIntLiteral`: an optional sign and digits (the float with at most one `.`). `nan`, `inf`, exponents, underscores and surrounding blanks are not modelled. `isdigit` and `upper` are ASCII only.
- AdvancedView.ResultGrid.DisplayResults takes each cell already as text or NULL. `str()` of integers, decimals and timestamps is not modelled, nor is `resizeColumnsToContents`.
- AdvancedView.StringExpression: the source builds the expression from `None` when no column is chosen. The statement then calls `quote_ident(None)` and raises, which the model reports as `Raise`, so that text is never formed.
- What the dialogs do after the database reports success is left out, because it depends on the database's answer. That covers clearing the type name and the grid, switching tabs, showing results and closing the dialog.
- InputDialog.CompositeColumnReadBack holds only for sub-fields without a backslash, because the program's encoding loses a backslash on the way to the database (see Findings).
- InputDialog.Save: `insert_dynamic_data` is not part of this model, so the outcome ends at the row handed to it. A date edit's value is given as its `yyyy-MM-dd` text.
- `get_enum_labels`, `get_composite_type_fields`, `get_auxiliary_items`, `generate_test_data`, `drop_schema` and `insert_dynamic_data` are imported by gui.py but not defined in db.py, so they are not modelled. `get_data` is modelled with the signature db.py gives it, the one without `table_name`.
- ViewDialog.SubqueryPanel.UpdateControls models the form rows' visibility only; the `setVisible` calls on the individual widgets (gui.py:484-492) are not modelled.
- TypesDialog.EnumValueGrid.DeleteRow takes the current row as a number. An index at least the row count changes nothing, as with Qt's `removeRow`; `currentRow()` never returns one.
- TypesDialog.CompositeFieldGrid.DeleteRow takes the current row as a number, with the same reading of an index past the last row.
- Db.AttackTypeEnumSql leaves out the blank lines and indentation around the statement in the source's triple-quoted text.
- No claim of injection safety is made. The WHERE, search, CASE and ENUM values are inserted unescaped, and the model says so: `QuoteRaw` and `EnumLabelList` do not escape.

## Findings

| source | as written | input that shows it | evidently intended | confidence | as-written member | corrected member |
|---|---|---|---|---|---|---|
| gui.py:229-230 | A composite sub-field containing `\` is put in double quotes with only `"` doubled; the backslash is sent as it is. | sub-field `a\b`: sent as `("a\b")`, which PostgreSQL's record input reads as the one field `ab` | inside the quotes, double `\` as well as `"` (as PostgreSQL's own record output does), so the field reads back as `a\b` | not executed | Composite.BackslashLostOnRead | Composite.CompositeValueReadBack |

The dialog is modelled as written: `Composite.BuildCompositeValue`,
`InputDialog.WidgetValue` and `InputDialog.Save` build the literal with only `"` doubled.
The corrected encoder is `Composite.EncodeField` and `Composite.CompositeValue`, whose
round trip through record input is `Composite.CompositeValueReadBack`.
`Composite.AsWrittenAgreesWithoutBackslash` and `Composite.CompositeAgreesWithoutBackslash`
show that the two agree on every sub-field without a backslash, which is why
`InputDialog.CompositeColumnReadBack` holds for those.
