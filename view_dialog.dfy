/**
  The subquery filter of gui.py `ViewDialog`: the condition built from the
  filter form (`build_subquery_condition`) and the form rows shown for each
  filter mode (`update_subquery_controls`).
 */
module ViewDialog {
  import opened Wrappers
  import opened Text
  import opened SqlText

  /** The filter-type combo: no filter, or one of the four subquery predicates. */
  datatype SubMode = NoFilter | Exists | NotExists | AnyOf | AllOf

  predicate IsExistsMode(m: SubMode) {
    m == Exists || m == NotExists
  }

  predicate IsCompareMode(m: SubMode) {
    m == AnyOf || m == AllOf
  }

  /** The keyword a mode puts into the condition. */
  function ModeKeyword(m: SubMode): (r: string)
    requires m != NoFilter
    ensures r != []
  {
    match m
    case Exists => "EXISTS"
    case NotExists => "NOT EXISTS"
    case AnyOf => "ANY"
    case AllOf => "ALL"
  }

  /** The state of the subquery filter form. */
  datatype SubqueryForm = SubqueryForm(
    mode: SubMode,
    subTable: Option<string>,
    subColumn: Option<string>,
    filterColumn: Option<string>,
    filterOperator: string,
    filterText: string,
    outerColumn: Option<string>,
    linkColumn: Option<string>,
    compareOperator: string)

  /** The inner filter is used when both its column and its stripped value are given. */
  predicate HasFilter(f: SubqueryForm) {
    Truthy(f.filterColumn) && Strip(f.filterText) != ""
  }

  /** `"fc" op literal`: the inner filter conjunct. */
  function FilterCondition(f: SubqueryForm): string
    requires HasFilter(f)
  {
    QuoteIdent(f.filterColumn.value) + " " + f.filterOperator + " " + FormatLiteral(Strip(f.filterText))
  }

  /** The inner filter conjuncts: the filter condition if there is one. */
  function FilterConditions(f: SubqueryForm): (r: seq<string>)
    ensures |r| <= 1
  {
    if HasFilter(f) then [FilterCondition(f)] else []
  }

  /** `"link" = ddos."t"."outer"`: correlates an EXISTS subquery with the outer row. */
  function LinkCondition(f: SubqueryForm, table: string): string
    requires f.outerColumn.Some? && f.linkColumn.Some?
  {
    QuoteIdent(f.linkColumn.value) + " = " + QualifyColumn(table, f.outerColumn.value)
  }

  /** The columns a mode needs are all chosen. */
  predicate ModeInputsGiven(f: SubqueryForm) {
    && f.mode != NoFilter
    && Truthy(f.subTable) && Truthy(f.subColumn)
    && Truthy(f.outerColumn)
    && (IsExistsMode(f.mode) ==> Truthy(f.linkColumn))
  }

  /** `KEYWORD (SELECT 1 FROM ddos."st" WHERE …)` */
  function ExistsSql(keyword: string, subTable: string, whereSql: string): string {
    keyword + " (" + ("SELECT 1 FROM " + TableSql(subTable) + " WHERE " + whereSql) + ")"
  }

  /** `lhs op KEYWORD (SELECT "col" FROM ddos."st"…)`, the WHERE clause (if any) included in `whereClause`. */
  function CompareSql(lhs: string, op: string, keyword: string, subColumn: string, subTable: string, whereClause: string): string {
    lhs + " " + op + " " + keyword + " (" + ("SELECT " + QuoteIdent(subColumn) + " FROM " + TableSql(subTable) + whereClause) + ")"
  }

  /**
    The condition the filter adds to the outer query over `table`: an EXISTS test
    whose conjuncts are the link condition followed by the filter, or a comparison
    of the outer column with ANY/ALL of the subquery column's values.
   */
  function SubqueryCondition(f: SubqueryForm, table: string): (r: Option<string>)
    ensures r.None? <==> !ModeInputsGiven(f)
  {
    if !ModeInputsGiven(f) then None
    else if IsExistsMode(f.mode) then
      Some(ExistsSql(ModeKeyword(f.mode), f.subTable.value,
                     Join([LinkCondition(f, table)] + FilterConditions(f), " AND ")))
    else
      Some(CompareSql(QualifyColumn(table, f.outerColumn.value), f.compareOperator, ModeKeyword(f.mode),
                      f.subColumn.value, f.subTable.value,
                      if FilterConditions(f) == [] then "" else " WHERE " + Join(FilterConditions(f), " AND ")))
  }

  /**
    `build_subquery_condition`: bail out on a missing mode, table or column; collect
    the filter conjunct; for EXISTS put the link condition in front of it, for
    ANY/ALL compare the outer column with the subquery.
   */
  method BuildSubqueryCondition(f: SubqueryForm, table: string) returns (cond: Option<string>)
    ensures cond == SubqueryCondition(f, table)
  {
    if f.mode == NoFilter {
      return None;
    }
    if !Truthy(f.subTable) || !Truthy(f.subColumn) {
      return None;
    }
    var subTableSql := TableSql(f.subTable.value);
    var filterValue := Strip(f.filterText);
    var whereParts: seq<string> := [];
    if Truthy(f.filterColumn) && filterValue != "" {
      whereParts := whereParts + [QuoteIdent(f.filterColumn.value) + " " + f.filterOperator + " " + FormatLiteral(filterValue)];
    }
    assert whereParts == FilterConditions(f);
    if IsExistsMode(f.mode) {
      if !(Truthy(f.outerColumn) && Truthy(f.linkColumn)) {
        return None;
      }
      whereParts := [QuoteIdent(f.linkColumn.value) + " = " + QualifyColumn(table, f.outerColumn.value)] + whereParts;
      var whereSql := if whereParts != [] then Join(whereParts, " AND ") else "TRUE";
      var subquery := "SELECT 1 FROM " + subTableSql + " WHERE " + whereSql;
      cond := Some(ModeKeyword(f.mode) + " (" + subquery + ")");
      assert cond.value == ExistsSql(ModeKeyword(f.mode), f.subTable.value, whereSql);
    } else {
      if !Truthy(f.outerColumn) {
        return None;
      }
      var whereSql := "";
      if whereParts != [] {
        whereSql := " WHERE " + Join(whereParts, " AND ");
      }
      var subquery := "SELECT " + QuoteIdent(f.subColumn.value) + " FROM " + subTableSql + whereSql;
      cond := Some(QualifyColumn(table, f.outerColumn.value) + " " + f.compareOperator + " " + ModeKeyword(f.mode) + " (" + subquery + ")");
      assert cond.value == CompareSql(QualifyColumn(table, f.outerColumn.value), f.compareOperator, ModeKeyword(f.mode),
                                      f.subColumn.value, f.subTable.value, whereSql);
    }
  }

  /**
    EXISTS / NOT EXISTS: the link condition is always the first conjunct, and the
    filter is the second exactly when both its column and value are given.
   */
  lemma ExistsConjuncts(f: SubqueryForm, table: string)
    requires ModeInputsGiven(f) && IsExistsMode(f.mode)
    ensures SubqueryCondition(f, table) == Some(ExistsSql(ModeKeyword(f.mode), f.subTable.value,
              if HasFilter(f) then LinkCondition(f, table) + " AND " + FilterCondition(f) else LinkCondition(f, table)))
  {
    var link := LinkCondition(f, table);
    JoinCons(link, FilterConditions(f), " AND ");
  }

  /** The WHERE of an EXISTS subquery is never the bare `TRUE` the source falls back to: it starts with a quoted identifier. */
  lemma ExistsWhereNeverTrue(f: SubqueryForm, table: string)
    requires ModeInputsGiven(f) && IsExistsMode(f.mode)
    ensures Join([LinkCondition(f, table)] + FilterConditions(f), " AND ") != "TRUE"
  {
    var link := LinkCondition(f, table);
    var w := Join([link] + FilterConditions(f), " AND ");
    JoinCons(link, FilterConditions(f), " AND ");
    assert w[0] == link[0] == '"';
  }

  /**
    ANY / ALL: `ddos."t"."outer" op ANY|ALL (SELECT "col" FROM ddos."st"[ WHERE filter])`,
    with a WHERE exactly when the filter is given.
   */
  lemma CompareShape(f: SubqueryForm, table: string)
    requires ModeInputsGiven(f) && IsCompareMode(f.mode)
    ensures SubqueryCondition(f, table) == Some(CompareSql(QualifyColumn(table, f.outerColumn.value), f.compareOperator,
              ModeKeyword(f.mode), f.subColumn.value, f.subTable.value,
              if HasFilter(f) then " WHERE " + FilterCondition(f) else ""))
  {
  }

  /**
    Which layout rows a mode shows (row 0, the type selector, is never changed):
    1 outer column, 2 comparison operator, 3 subquery table, 4 subquery column,
    5 link column, 6–8 the inner filter.
   */
  predicate RowShown(mode: SubMode, row: int) {
    if row == 1 then IsCompareMode(mode) || IsExistsMode(mode)
    else if row == 2 || row == 4 then IsCompareMode(mode)
    else if row == 5 then IsExistsMode(mode)
    else if row == 3 || row == 6 || row == 7 || row == 8 then mode != NoFilter
    else false
  }

  /** The rows of the subquery form's layout and whether each is visible. */
  class SubqueryPanel {
    var rowVisible: array<bool>

    constructor (rowCount: nat)
      ensures fresh(rowVisible)
      ensures rowVisible.Length == rowCount
      ensures forall i :: 0 <= i < rowCount ==> rowVisible[i]
    {
      rowVisible := new bool[rowCount](_ => true);
    }

    /** `layout.setRowVisible(row, True)`; a row past the end is ignored. */
    method ShowRow(row: int)
      modifies rowVisible
      ensures forall i :: 0 <= i < rowVisible.Length ==>
                rowVisible[i] == (i == row || old(rowVisible[i]))
    {
      if 0 <= row < rowVisible.Length {
        rowVisible[row] := true;
      }
    }

    /**
      `update_subquery_controls`: hide every row but the first, then show the
      rows the mode needs.
     */
    method UpdateControls(mode: SubMode)
      modifies rowVisible
      ensures rowVisible.Length > 0 ==> rowVisible[0] == old(rowVisible[0])
      ensures forall i :: 1 <= i < rowVisible.Length ==> rowVisible[i] == RowShown(mode, i)
    {
      var i := 1;
      while i < rowVisible.Length
        invariant 1 <= i
        invariant rowVisible.Length > 0 ==> rowVisible[0] == old(rowVisible[0])
        invariant forall j :: 1 <= j < i && j < rowVisible.Length ==> !rowVisible[j]
      {
        rowVisible[i] := false;
        i := i + 1;
      }
      if mode != NoFilter {
        ShowRow(3);
        ShowRow(6);
        ShowRow(7);
        ShowRow(8);
        if IsCompareMode(mode) {
          ShowRow(1);
          ShowRow(2);
          ShowRow(4);
        }
        if IsExistsMode(mode) {
          ShowRow(1);
          ShowRow(5);
        }
      }
    }
  }
}
