/**
  db.py: the filtered `get_data` query with its parameter list, the SELECT-or-command
  decision of `execute_custom_query`, and the ENUM type `create_schema` declares for
  the attack types. The database itself is not modelled: statements are only built.
 */
module Db {
  import opened Wrappers
  import opened Text
  import opened SqlText

  // ---------------------------------------------------------------------------
  // get_data

  const PLACEHOLDER := "%s"
  const SELECTED_COLUMNS := "SELECT id, name, attack_type, packets, "
  const FROM_EXPERIMENTS := "duration, created_at FROM ddos.experiments"
  const WHERE_ALWAYS := " WHERE 1=1"
  /** The query every filter is appended to. */
  const BASE_QUERY := SELECTED_COLUMNS + FROM_EXPERIMENTS + WHERE_ALWAYS
  const ATTACK_TYPE_CONDITION := " AND attack_type = " + PLACEHOLDER
  const FROM_CONDITION := " AND created_at >= " + PLACEHOLDER + "::timestamp"
  const TO_CONDITION := " AND created_at <= " + PLACEHOLDER + "::timestamp"
  const ORDER_BY_NEWEST := " ORDER BY created_at DESC"
  /** The start and the end of a day, appended to the filter dates. */
  const DAY_START := " 00:00:00"
  const DAY_END := " 23:59:59"

  /** The three optional filters of `get_data`; each counts only when truthy. */
  datatype DataFilter = DataFilter(attackType: Option<string>, dateFrom: Option<string>, dateTo: Option<string>)

  /** The conditions of the filters given, in the order attack type, from, to. */
  function FilterConditions(f: DataFilter): string {
    (if Truthy(f.attackType) then ATTACK_TYPE_CONDITION else "")
    + (if Truthy(f.dateFrom) then FROM_CONDITION else "")
    + (if Truthy(f.dateTo) then TO_CONDITION else "")
  }

  /** The parameters of the filters given, in the same order; the dates carry the time of day. */
  function FilterParams(f: DataFilter): seq<string> {
    (if Truthy(f.attackType) then [f.attackType.value] else [])
    + (if Truthy(f.dateFrom) then [f.dateFrom.value + DAY_START] else [])
    + (if Truthy(f.dateTo) then [f.dateTo.value + DAY_END] else [])
  }

  /** The `get_data` query as a whole. */
  function DataQuery(f: DataFilter): string {
    BASE_QUERY + FilterConditions(f) + ORDER_BY_NEWEST
  }

  /** A text between a prefix and a suffix starts with the one and ends with the other. */
  lemma Framed(prefix: string, middle: string, suffix: string)
    ensures StartsWith(prefix + middle + suffix, prefix) && EndsWith(prefix + middle + suffix, suffix)
  {
    assert (prefix + middle + suffix)[..|prefix|] == prefix;
    assert (prefix + middle + suffix)[|prefix + middle|..] == suffix;
  }

  /** `get_data`: the query and its parameters, built up one filter at a time. */
  method GetDataQuery(f: DataFilter) returns (query: string, params: seq<string>)
    ensures query == DataQuery(f) && params == FilterParams(f)
  {
    query := BASE_QUERY;
    params := [];
    ghost var conditions := "";
    AppendEmpty(BASE_QUERY);
    if Truthy(f.attackType) {
      query := query + ATTACK_TYPE_CONDITION;
      params := params + [f.attackType.value];
      ConcatAssoc(BASE_QUERY, conditions, ATTACK_TYPE_CONDITION);
      conditions := conditions + ATTACK_TYPE_CONDITION;
    }
    if Truthy(f.dateFrom) {
      query := query + FROM_CONDITION;
      params := params + [f.dateFrom.value + DAY_START];
      ConcatAssoc(BASE_QUERY, conditions, FROM_CONDITION);
      conditions := conditions + FROM_CONDITION;
    }
    if Truthy(f.dateTo) {
      query := query + TO_CONDITION;
      params := params + [f.dateTo.value + DAY_END];
      ConcatAssoc(BASE_QUERY, conditions, TO_CONDITION);
      conditions := conditions + TO_CONDITION;
    }
    assert query == BASE_QUERY + conditions;
    assert conditions == FilterConditions(f);
    query := query + ORDER_BY_NEWEST;
  }

  lemma SelectedColumnsPercentFree()
    ensures forall i :: 0 <= i < |SELECTED_COLUMNS| ==> SELECTED_COLUMNS[i] != '%'
  {
  }

  lemma FromExperimentsPercentFree()
    ensures forall i :: 0 <= i < |FROM_EXPERIMENTS| ==> FROM_EXPERIMENTS[i] != '%'
  {
  }

  lemma WhereAlwaysPercentFree()
    ensures forall i :: 0 <= i < |WHERE_ALWAYS| ==> WHERE_ALWAYS[i] != '%'
  {
  }

  lemma OrderByPercentFree()
    ensures forall i :: 0 <= i < |ORDER_BY_NEWEST| ==> ORDER_BY_NEWEST[i] != '%'
  {
  }

  /** Three texts without `%` make none together. */
  lemma ThreePercentFree(a: string, b: string, c: string)
    requires forall i :: 0 <= i < |a| ==> a[i] != '%'
    requires forall i :: 0 <= i < |b| ==> b[i] != '%'
    requires forall i :: 0 <= i < |c| ==> c[i] != '%'
    ensures CountChar(a + b + c, '%') == 0
  {
    CountCharAbsent(a, '%');
    CountCharAbsent(b, '%');
    CountCharAbsent(c, '%');
    CountCharConcat(a, b, '%');
    CountCharConcat(a + b, c, '%');
  }

  lemma BaseQueryHasNoPercent()
    ensures CountChar(BASE_QUERY, '%') == 0
  {
    SelectedColumnsPercentFree();
    FromExperimentsPercentFree();
    WhereAlwaysPercentFree();
    ThreePercentFree(SELECTED_COLUMNS, FROM_EXPERIMENTS, WHERE_ALWAYS);
  }

  lemma OrderByHasNoPercent()
    ensures CountChar(ORDER_BY_NEWEST, '%') == 0
  {
    OrderByPercentFree();
    CountCharAbsent(ORDER_BY_NEWEST, '%');
  }

  lemma PlaceholderIsOnePercent()
    ensures CountChar(PLACEHOLDER, '%') == 1
  {
    assert PLACEHOLDER[1..][1..] == [];
  }

  /** A condition `lead + %s + trail` with no `%` in its lead and trail holds one placeholder. */
  lemma ConditionHasOnePercent(lead: string, trail: string)
    requires forall i :: 0 <= i < |lead| ==> lead[i] != '%'
    requires forall i :: 0 <= i < |trail| ==> trail[i] != '%'
    ensures CountChar(lead + PLACEHOLDER + trail, '%') == 1
  {
    CountCharAbsent(lead, '%');
    CountCharAbsent(trail, '%');
    PlaceholderIsOnePercent();
    CountCharConcat(lead, PLACEHOLDER, '%');
    CountCharConcat(lead + PLACEHOLDER, trail, '%');
  }

  lemma AttackTypeConditionHasOnePlaceholder()
    ensures CountChar(ATTACK_TYPE_CONDITION, '%') == 1
  {
    ConditionHasOnePercent(" AND attack_type = ", "");
    assert ATTACK_TYPE_CONDITION == " AND attack_type = " + PLACEHOLDER + "";
  }

  lemma FromConditionHasOnePlaceholder()
    ensures CountChar(FROM_CONDITION, '%') == 1
  {
    ConditionHasOnePercent(" AND created_at >= ", "::timestamp");
  }

  lemma ToConditionHasOnePlaceholder()
    ensures CountChar(TO_CONDITION, '%') == 1
  {
    ConditionHasOnePercent(" AND created_at <= ", "::timestamp");
  }

  /** Each filter given adds one `%s` and one parameter, so the query has as many placeholders as parameters. */
  lemma PlaceholdersMatchParams(f: DataFilter)
    ensures CountChar(DataQuery(f), '%') == |FilterParams(f)|
  {
    ConditionsCount(f);
    BaseQueryHasNoPercent();
    OrderByHasNoPercent();
    CountCharConcat(BASE_QUERY, FilterConditions(f), '%');
    CountCharConcat(BASE_QUERY + FilterConditions(f), ORDER_BY_NEWEST, '%');
  }

  /** The conditions hold one placeholder per parameter. */
  lemma ConditionsCount(f: DataFilter)
    ensures CountChar(FilterConditions(f), '%') == |FilterParams(f)|
  {
    var a := if Truthy(f.attackType) then ATTACK_TYPE_CONDITION else "";
    var b := if Truthy(f.dateFrom) then FROM_CONDITION else "";
    var c := if Truthy(f.dateTo) then TO_CONDITION else "";
    AttackTypeConditionHasOnePlaceholder();
    FromConditionHasOnePlaceholder();
    ToConditionHasOnePlaceholder();
    OptionalCondition(Truthy(f.attackType), ATTACK_TYPE_CONDITION, if f.attackType.Some? then f.attackType.value else "");
    OptionalCondition(Truthy(f.dateFrom), FROM_CONDITION, if f.dateFrom.Some? then f.dateFrom.value + DAY_START else "");
    OptionalCondition(Truthy(f.dateTo), TO_CONDITION, if f.dateTo.Some? then f.dateTo.value + DAY_END else "");
    CountCharConcat(a, b, '%');
    CountCharConcat(a + b, c, '%');
  }

  /** A condition with one placeholder, added only when its filter is given, brings as many placeholders as parameters. */
  lemma OptionalCondition(given: bool, condition: string, param: string)
    requires CountChar(condition, '%') == 1
    ensures CountChar(if given then condition else "", '%') == |if given then [param] else []|
  {
    if !given {
      assert CountChar("", '%') == 0;
    }
  }

  /** Whatever the filters, the query starts with the base query and ends ordered by date, newest first. */
  lemma DataQueryFramed(f: DataFilter)
    ensures StartsWith(DataQuery(f), BASE_QUERY) && EndsWith(DataQuery(f), ORDER_BY_NEWEST)
  {
    Framed(BASE_QUERY, FilterConditions(f), ORDER_BY_NEWEST);
  }

  /** Without filters the query is the base query ordered by date, and there are no parameters. */
  lemma NoFiltersNoConditions(f: DataFilter)
    requires !Truthy(f.attackType) && !Truthy(f.dateFrom) && !Truthy(f.dateTo)
    ensures DataQuery(f) == BASE_QUERY + ORDER_BY_NEWEST
    ensures FilterParams(f) == []
  {
    assert FilterConditions(f) == "";
  }

  /** With every filter the conditions come in the order attack type, from, to, each with its parameter. */
  lemma AllFiltersInOrder(f: DataFilter)
    requires Truthy(f.attackType) && Truthy(f.dateFrom) && Truthy(f.dateTo)
    ensures DataQuery(f) == BASE_QUERY + ATTACK_TYPE_CONDITION + FROM_CONDITION + TO_CONDITION + ORDER_BY_NEWEST
    ensures FilterParams(f) == [f.attackType.value, f.dateFrom.value + DAY_START, f.dateTo.value + DAY_END]
  {
    assert FilterConditions(f) == ATTACK_TYPE_CONDITION + FROM_CONDITION + TO_CONDITION;
    Regroup(BASE_QUERY, ATTACK_TYPE_CONDITION, FROM_CONDITION, TO_CONDITION, ORDER_BY_NEWEST);
  }

  /** Three middle parts between a prefix and a suffix may be bracketed either way. */
  lemma Regroup(prefix: string, x: string, y: string, z: string, suffix: string)
    ensures prefix + (x + y + z) + suffix == prefix + x + y + z + suffix
  {
  }

  /** A date filter's parameter is the date followed by the start or the end of the day. */
  lemma DateParamsCoverWholeDays(f: DataFilter)
    ensures Truthy(f.dateFrom) ==> f.dateFrom.value + DAY_START in FilterParams(f)
    ensures Truthy(f.dateTo) ==> FilterParams(f)[|FilterParams(f)| - 1] == f.dateTo.value + DAY_END
    ensures !Truthy(f.dateTo) && Truthy(f.dateFrom) ==> FilterParams(f)[|FilterParams(f)| - 1] == f.dateFrom.value + DAY_START
  {
  }

  // ---------------------------------------------------------------------------
  // execute_custom_query

  /** What `execute_custom_query` does after running a statement: fetch its rows, or commit. */
  datatype Handling = FetchRows | Commit

  /** The test of `execute_custom_query`: stripped and upper-cased, the text starts with `SELECT`. */
  predicate IsSelectStatement(query: string) {
    StartsWith(Upper(Strip(query)), "SELECT")
  }

  /** A SELECT has its rows fetched and nothing committed; any other statement is committed. */
  function CustomQueryHandling(query: string): (r: Handling)
    ensures r == FetchRows <==> IsSelectStatement(query)
    ensures r == Commit <==> !IsSelectStatement(query)
  {
    if IsSelectStatement(query) then FetchRows else Commit
  }

  /** White space before the statement does not change how it is handled. */
  lemma HandlingIgnoresLeadingSpace(pad: string, query: string)
    requires forall i :: 0 <= i < |pad| ==> IsSpace(pad[i])
    ensures CustomQueryHandling(pad + query) == CustomQueryHandling(query)
  {
    StripPadded(pad, query);
  }

  /** A statement opening with `select` in lower case is a SELECT too. */
  lemma LowerCaseSelectFetches(query: string)
    requires StartsWith(Strip(query), "select")
    ensures CustomQueryHandling(query) == FetchRows
  {
    var u := Upper(Strip(query));
    forall i | 0 <= i < 6 ensures u[i] == "SELECT"[i] {
      assert Strip(query)[i] == "select"[i];
    }
    assert u[..6] == "SELECT";
  }

  /** A statement whose first character is not an `s` of either case is committed. */
  lemma OtherStatementsCommit(query: string)
    requires Strip(query) != [] && Strip(query)[0] != 's' && Strip(query)[0] != 'S'
    ensures CustomQueryHandling(query) == Commit
  {
    var u := Upper(Strip(query));
    if |u| >= 6 {
      assert u[..6][0] == u[0] == UpperChar(Strip(query)[0]);
    }
  }

  // ---------------------------------------------------------------------------
  // create_schema

  /** `create_schema`'s ENUM type for the configured attack types, their list written without escaping. */
  function AttackTypeEnumSql(attackTypes: seq<string>): (r: string)
    ensures StartsWith(r, "CREATE TYPE " + SCHEMA + ".attack_type AS ENUM ('") && EndsWith(r, "');")
  {
    "CREATE TYPE " + SCHEMA + ".attack_type AS ENUM " + EnumLabelList(attackTypes) + ";"
  }

  /** For attack types free of `'`, the statement's list cuts back into the attack types, in order. */
  lemma AttackTypeEnumReadBack(attackTypes: seq<string>)
    requires |attackTypes| > 0
    requires forall j, i :: 0 <= j < |attackTypes| && 0 <= i < |attackTypes[j]| ==> attackTypes[j][i] != '\''
    ensures var r := AttackTypeEnumSql(attackTypes);
            var p := "CREATE TYPE " + SCHEMA + ".attack_type AS ENUM ('";
            Unjoin(r[|p|..|r| - 3], "', '") == attackTypes
  {
    var r := AttackTypeEnumSql(attackTypes);
    var p := "CREATE TYPE " + SCHEMA + ".attack_type AS ENUM ('";
    assert r[|p|..|r| - 3] == Join(attackTypes, "', '");
    UnjoinJoin(attackTypes, "', '");
  }
}
