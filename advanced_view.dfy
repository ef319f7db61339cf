/**
  The query builders of advanced_view_dialog.py `AdvancedViewDialog`: the SELECT
  constructor, text search, string functions, JOIN, CASE, COALESCE/NULLIF, and
  the result grid that shows what a query returned.
 */
module AdvancedView {
  import opened Wrappers
  import opened Text
  import opened SqlText

  /** `'v'`: a value wrapped in single quotes as it is, nothing inside escaped. */
  function QuoteRaw(v: string): (r: string)
    ensures |r| == |v| + 2 && r[0] == '\'' && r[|r| - 1] == '\'' && r[1..|r| - 1] == v
  {
    "'" + v + "'"
  }

  // ---------------------------------------------------------------------------
  // `build_select_query`

  /** The state of the SELECT constructor tab. */
  datatype SelectForm = SelectForm(
    columnsText: string,
    table: Option<string>,
    whereColumn: Option<string>,
    whereOperator: string,
    whereText: string,
    groupColumn: Option<string>,
    havingAggregate: string,
    havingOperator: string,
    havingText: string,
    orderColumn: Option<string>,
    orderLabel: string)

  /** An optional clause of the SELECT, with its operands already rendered. */
  datatype Clause =
    | Where(column: string, op: string, value: string)
    | GroupBy(column: string)
    | Having(aggregate: string, op: string, value: string)
    | OrderBy(column: string, descending: bool)

  /** The place of a clause kind in the statement. */
  function Rank(c: Clause): nat {
    match c
    case Where(_, _, _) => 0
    case GroupBy(_) => 1
    case Having(_, _, _) => 2
    case OrderBy(_, _) => 3
  }

  function RenderClause(c: Clause): (r: string)
    ensures r != [] && r[0] == ' '
  {
    match c
    case Where(column, op, value) => " WHERE " + QuoteIdent(column) + " " + op + " " + value
    case GroupBy(column) => " GROUP BY " + QuoteIdent(column)
    case Having(aggregate, op, value) => " HAVING " + aggregate + " " + op + " " + value
    case OrderBy(column, descending) => " ORDER BY " + QuoteIdent(column) + " " + (if descending then "DESC" else "ASC")
  }

  function RenderClauses(cs: seq<Clause>): (r: string)
    ensures r == [] || r[0] == ' '
    decreases |cs|
  {
    if cs == [] then "" else RenderClause(cs[0]) + RenderClauses(cs[1..])
  }

  /** The WHERE value: bare when `float()` accepts it, else quoted as it is. */
  function WhereValue(v: string): (r: string)
    ensures r == v <==> IsFloatLiteral(v)
  {
    if IsFloatLiteral(v) then v else QuoteRaw(v)
  }

  /** The HAVING value: bare when it is all digits after removing its first `.`, else quoted as it is. */
  function HavingValue(v: string): (r: string)
    ensures r == v <==> IsDigits(RemoveFirst(v, '.'))
  {
    if IsDigits(RemoveFirst(v, '.')) then v else QuoteRaw(v)
  }

  predicate HasWhere(f: SelectForm) {
    Truthy(f.whereColumn) && Strip(f.whereText) != ""
  }

  predicate HasGroupBy(f: SelectForm) {
    Truthy(f.groupColumn)
  }

  predicate HasHaving(f: SelectForm) {
    Strip(f.havingText) != ""
  }

  predicate HasOrderBy(f: SelectForm) {
    Truthy(f.orderColumn)
  }

  /** Whether the form asks for the clause of rank `k`. */
  predicate Asked(f: SelectForm, k: nat) {
    if k == 0 then HasWhere(f)
    else if k == 1 then HasGroupBy(f)
    else if k == 2 then HasHaving(f)
    else k == 3 && HasOrderBy(f)
  }

  /** The clause of rank `k`, if the form asks for it. */
  function Piece(f: SelectForm, k: nat): (r: seq<Clause>)
    requires k < 4
    ensures |r| <= 1
    ensures forall i :: 0 <= i < |r| ==> Rank(r[i]) == k
    ensures r != [] <==> Asked(f, k)
  {
    if !Asked(f, k) then []
    else if k == 0 then [Where(f.whereColumn.value, f.whereOperator, WhereValue(Strip(f.whereText)))]
    else if k == 1 then [GroupBy(f.groupColumn.value)]
    else if k == 2 then [Having(f.havingAggregate, f.havingOperator, HavingValue(Strip(f.havingText)))]
    else [OrderBy(f.orderColumn.value, Contains(f.orderLabel, "DESC"))]
  }

  /**
    The clauses of rank `k` and above that the form asks for: in strictly
    increasing rank (so each kind at most once, in the order WHERE, GROUP BY,
    HAVING, ORDER BY), with a clause of rank `m` exactly when it is asked for.
   */
  function ClausesFrom(f: SelectForm, k: nat): (r: seq<Clause>)
    requires k <= 4
    ensures forall i :: 0 <= i < |r| ==> k <= Rank(r[i]) < 4
    ensures forall i, j :: 0 <= i < j < |r| ==> Rank(r[i]) < Rank(r[j])
    decreases 4 - k
  {
    if k == 4 then [] else Piece(f, k) + ClausesFrom(f, k + 1)
  }

  /** The clauses the form asks for, in statement order. */
  function SelectClauses(f: SelectForm): seq<Clause> {
    ClausesFrom(f, 0)
  }

  /** The selected columns: the stripped text, or `*` when it is blank. */
  function SelectColumns(f: SelectForm): (r: string)
    ensures r != ""
    ensures Strip(f.columnsText) == "" ==> r == "*"
    ensures Strip(f.columnsText) != "" ==> r == Strip(f.columnsText)
  {
    if Strip(f.columnsText) == "" then "*" else Strip(f.columnsText)
  }

  /** `SELECT cols FROM ddos."t"`, the table defaulting to `experiments`. */
  function SelectHead(f: SelectForm): string {
    "SELECT " + SelectColumns(f) + " FROM " + TableSql(OrDefault(f.table, DEFAULT_TABLE))
  }

  /** The clause list has a clause of rank `m`. */
  predicate HasRank(cs: seq<Clause>, m: nat) {
    exists i :: 0 <= i < |cs| && Rank(cs[i]) == m
  }

  lemma HasRankConcat(a: seq<Clause>, b: seq<Clause>, m: nat)
    ensures HasRank(a + b, m) <==> HasRank(a, m) || HasRank(b, m)
  {
    if HasRank(a + b, m) {
      var i :| 0 <= i < |a + b| && Rank((a + b)[i]) == m;
      if i < |a| { assert (a + b)[i] == a[i]; } else { assert (a + b)[i] == b[i - |a|]; }
    }
    if HasRank(a, m) {
      var i :| 0 <= i < |a| && Rank(a[i]) == m;
      assert (a + b)[i] == a[i];
    }
    if HasRank(b, m) {
      var i :| 0 <= i < |b| && Rank(b[i]) == m;
      assert (a + b)[|a| + i] == b[i];
    }
  }

  lemma HasRankPiece(f: SelectForm, k: nat, m: nat)
    requires k < 4
    ensures HasRank(Piece(f, k), m) <==> m == k && Asked(f, k)
  {
    if Asked(f, k) { assert Rank(Piece(f, k)[0]) == k; }
  }

  /** The clause list is the four optional pieces in statement order. */
  lemma SelectClausesUnfold(f: SelectForm)
    ensures SelectClauses(f) == Piece(f, 0) + Piece(f, 1) + Piece(f, 2) + Piece(f, 3)
  {
    var p0, p1, p2, p3 := Piece(f, 0), Piece(f, 1), Piece(f, 2), Piece(f, 3);
    ClausesFromStep(f, 0);
    ClausesFromStep(f, 1);
    ClausesFromStep(f, 2);
    ClausesFromStep(f, 3);
    assert ClausesFrom(f, 4) == [];
    assert p3 + [] == p3;
    SeqRegroup(p0, p1, p2, p3);
  }

  lemma SeqRegroup<T>(a: seq<T>, b: seq<T>, c: seq<T>, d: seq<T>)
    ensures a + (b + (c + d)) == a + b + c + d
  {
  }

  lemma ClausesFromStep(f: SelectForm, k: nat)
    requires k < 4
    ensures ClausesFrom(f, k) == Piece(f, k) + ClausesFrom(f, k + 1)
  {
  }

  /** A clause kind is in the statement exactly when the form asks for it. */
  lemma SelectClausesPresence(f: SelectForm)
    ensures forall m :: 0 <= m < 4 ==> (Asked(f, m) <==> HasRank(SelectClauses(f), m))
  {
    var p0, p1, p2, p3 := Piece(f, 0), Piece(f, 1), Piece(f, 2), Piece(f, 3);
    SelectClausesUnfold(f);
    forall m | 0 <= m < 4
      ensures Asked(f, m) <==> HasRank(SelectClauses(f), m)
    {
      HasRankConcat(p0 + p1 + p2, p3, m);
      HasRankConcat(p0 + p1, p2, m);
      HasRankConcat(p0, p1, m);
      HasRankPiece(f, 0, m);
      HasRankPiece(f, 1, m);
      HasRankPiece(f, 2, m);
      HasRankPiece(f, 3, m);
    }
  }

  /** Rendering a clause list in two parts renders each part in turn. */
  lemma {:induction false} RenderConcat(a: seq<Clause>, b: seq<Clause>)
    ensures RenderClauses(a + b) == RenderClauses(a) + RenderClauses(b)
    decreases |a|
  {
    if a == [] {
      assert a + b == b;
    } else {
      assert (a + b)[0] == a[0];
      assert (a + b)[1..] == a[1..] + b;
      RenderConcat(a[1..], b);
      ConcatAssoc(RenderClause(a[0]), RenderClauses(a[1..]), RenderClauses(b));
    }
  }

  lemma RenderOne(c: Clause)
    ensures RenderClauses([c]) == RenderClause(c)
  {
    assert [c][1..] == [];
  }

  /** The text each clause kind adds, or nothing when the form does not ask for it. */
  lemma PieceTexts(f: SelectForm)
    ensures RenderClauses(Piece(f, 0)) == if HasWhere(f) then
              " WHERE " + QuoteIdent(f.whereColumn.value) + " " + f.whereOperator + " " + WhereValue(Strip(f.whereText)) else ""
    ensures RenderClauses(Piece(f, 1)) == if HasGroupBy(f) then " GROUP BY " + QuoteIdent(f.groupColumn.value) else ""
    ensures RenderClauses(Piece(f, 2)) == if HasHaving(f) then
              " HAVING " + f.havingAggregate + " " + f.havingOperator + " " + HavingValue(Strip(f.havingText)) else ""
    ensures RenderClauses(Piece(f, 3)) == if HasOrderBy(f) then
              " ORDER BY " + QuoteIdent(f.orderColumn.value) + " " + (if Contains(f.orderLabel, "DESC") then "DESC" else "ASC") else ""
  {
    if HasWhere(f) { RenderOne(Piece(f, 0)[0]); }
    if HasGroupBy(f) { RenderOne(Piece(f, 1)[0]); }
    if HasHaving(f) { RenderOne(Piece(f, 2)[0]); }
    if HasOrderBy(f) { RenderOne(Piece(f, 3)[0]); }
  }

  lemma Regroup(h: string, r0: string, r1: string, r2: string, r3: string)
    ensures h + (r0 + r1 + r2 + r3) == h + r0 + r1 + r2 + r3
  {
  }

  /** The whole query is the head followed by the text of each clause kind in turn. */
  lemma SelectQueryPieces(f: SelectForm)
    ensures SelectHead(f) + RenderClauses(SelectClauses(f))
            == SelectHead(f) + RenderClauses(Piece(f, 0)) + RenderClauses(Piece(f, 1))
               + RenderClauses(Piece(f, 2)) + RenderClauses(Piece(f, 3))
  {
    var p0, p1, p2, p3 := Piece(f, 0), Piece(f, 1), Piece(f, 2), Piece(f, 3);
    SelectClausesUnfold(f);
    RenderConcat(p0 + p1 + p2, p3);
    RenderConcat(p0 + p1, p2);
    RenderConcat(p0, p1);
    Regroup(SelectHead(f), RenderClauses(p0), RenderClauses(p1), RenderClauses(p2), RenderClauses(p3));
  }

  /** `build_select_query`: the head, then each clause the form asks for, appended in turn. */
  method BuildSelectQuery(f: SelectForm) returns (query: string)
    ensures query == SelectHead(f) + RenderClauses(SelectClauses(f))
  {
    var columns := Strip(f.columnsText);
    if columns == "" {
      columns := "*";
    }
    var table := OrDefault(f.table, DEFAULT_TABLE);
    query := "SELECT " + columns + " FROM " + TableSql(table);
    ghost var q0 := query;
    assert q0 == SelectHead(f);
    PieceTexts(f);

    var whereVal := Strip(f.whereText);
    if Truthy(f.whereColumn) && whereVal != "" {
      if !IsFloatLiteral(whereVal) {
        whereVal := "'" + whereVal + "'";
      }
      query := query + (" WHERE " + QuoteIdent(f.whereColumn.value) + " " + f.whereOperator + " " + whereVal);
    } else {
      AppendEmpty(query);
    }
    ghost var q1 := query;
    assert q1 == q0 + RenderClauses(Piece(f, 0));

    if Truthy(f.groupColumn) {
      query := query + (" GROUP BY " + QuoteIdent(f.groupColumn.value));
    } else {
      AppendEmpty(query);
    }
    ghost var q2 := query;
    assert q2 == q1 + RenderClauses(Piece(f, 1));

    var havingVal := Strip(f.havingText);
    if havingVal != "" {
      if !IsDigits(RemoveFirst(havingVal, '.')) {
        havingVal := "'" + havingVal + "'";
      }
      query := query + (" HAVING " + f.havingAggregate + " " + f.havingOperator + " " + havingVal);
    } else {
      AppendEmpty(query);
    }
    ghost var q3 := query;
    assert q3 == q2 + RenderClauses(Piece(f, 2));

    if Truthy(f.orderColumn) {
      var orderDir := if Contains(f.orderLabel, "DESC") then "DESC" else "ASC";
      query := query + (" ORDER BY " + QuoteIdent(f.orderColumn.value) + " " + orderDir);
    } else {
      AppendEmpty(query);
    }
    assert query == q3 + RenderClauses(Piece(f, 3));
    SelectQueryPieces(f);
    assert query == SelectHead(f) + RenderClauses(Piece(f, 0)) + RenderClauses(Piece(f, 1))
                    + RenderClauses(Piece(f, 2)) + RenderClauses(Piece(f, 3));
  }

  /**
    Every query the constructor builds opens `SELECT <cols> FROM ddos.`; the chosen
    table (`experiments` by default) reads back after it, followed by the clauses,
    which cannot run into the quoted table name.
   */
  lemma SelectHeadReadBack(f: SelectForm)
    ensures var q := SelectHead(f) + RenderClauses(SelectClauses(f));
            var prefix := "SELECT " + SelectColumns(f) + " FROM ";
            && StartsWith(q, prefix + SCHEMA + ".")
            && ReadQuoted(q[|prefix| + 5..], '"') == Some((OrDefault(f.table, DEFAULT_TABLE), RenderClauses(SelectClauses(f))))
  {
    var prefix := "SELECT " + SelectColumns(f) + " FROM ";
    TableSqlStarts(prefix, OrDefault(f.table, DEFAULT_TABLE), RenderClauses(SelectClauses(f)));
    TableSqlReadBack(prefix, OrDefault(f.table, DEFAULT_TABLE), RenderClauses(SelectClauses(f)));
  }

  const ASC_LABEL := "По возрастанию (ASC)"
  const DESC_LABEL := "По убыванию (DESC)"

  /** The ascending label does not mention DESC, so it sorts ascending. */
  lemma AscLabelSortsAscending()
    ensures !Contains(ASC_LABEL, "DESC")
  {
    AbsentHead(ASC_LABEL, "DESC");
  }

  /** The descending label mentions DESC, so it sorts descending. */
  lemma DescLabelSortsDescending()
    ensures Contains(DESC_LABEL, "DESC")
  {
    ContainsAt(DESC_LABEL, "DESC", 13);
  }

  // ---------------------------------------------------------------------------
  // `execute_search`

  // The combo's labels, as the form shows them. A few are written as concatenations of
  // pieces, and each "Has"/"Lacks" fact about a label is its own small lemma: both keep
  // the verifier's work on these literal texts small; the texts are the same.
  const SEARCH_LIKE := "LIKE (Простой шаблон %)"
  const SEARCH_ILIKE := "ILIKE (Простой шаблон, без регистра)"
  const SEARCH_REGEX := "~ (POSIX RegEx: Регулярное выражение)"
  const SEARCH_REGEX_CI := "~* (POSIX RegEx: Без учета регистра)"
  const SEARCH_NOT_REGEX := "!~ (POSIX: НЕ соответствует)"
  const SEARCH_NOT_REGEX_CI := "!~* (POSIX: НЕ соответствует, без регистра)"
  const SEARCH_SIMILAR := "SIMILAR TO (SQL Стандарт)"
  const SEARCH_NOT_SIMILAR := "NOT SIMILAR TO (SQL " + "Стандарт: НЕ соответствует)"

  /** The search-method combo's labels, in order. */
  const SEARCH_LABELS: seq<string> := [SEARCH_LIKE, SEARCH_ILIKE, SEARCH_REGEX, SEARCH_REGEX_CI,
                                       SEARCH_NOT_REGEX, SEARCH_NOT_REGEX_CI, SEARCH_SIMILAR, SEARCH_NOT_SIMILAR]

  /** The operator each label names at its start. */
  const SEARCH_OPERATORS: seq<string> := ["LIKE", "ILIKE", "~", "~*", "!~", "!~*", "SIMILAR TO", "NOT SIMILAR TO"]

  /** The operator chosen from the search-method label, by the source's chain of substring tests. */
  function SearchOperator(choice: string): string {
    if Contains(choice, "LIKE") && !Contains(choice, "ILIKE") then "LIKE"
    else if Contains(choice, "ILIKE") then "ILIKE"
    else if Contains(choice, "~") && Contains(choice, "POSIX") then
      if Contains(choice, "!~*") then "!~*"
      else if Contains(choice, "!~") then "!~"
      else if Contains(choice, "~*") then "~*"
      else "~"
    else if Contains(choice, "SIMILAR TO") then
      if Contains(choice, "NOT") then "NOT SIMILAR TO" else "SIMILAR TO"
    else "LIKE"
  }

  lemma SearchLikeHasLike()
    ensures Contains(SEARCH_LIKE, "LIKE")
  {
    ContainsAt(SEARCH_LIKE, "LIKE", 0);
  }

  lemma SearchLikeLacksIlike()
    ensures !Contains(SEARCH_LIKE, "ILIKE")
  {
    AbsentPair(SEARCH_LIKE, "ILIKE");
  }

  /** The label SEARCH_LIKE selects LIKE. */
  lemma SearchLike()
    ensures SearchOperator(SEARCH_LIKE) == "LIKE"
  {
    SearchLikeHasLike();
    SearchLikeLacksIlike();
  }

  lemma SearchIlikeHasIlike()
    ensures Contains(SEARCH_ILIKE, "ILIKE")
  {
    ContainsAt(SEARCH_ILIKE, "ILIKE", 0);
  }

  /** The label SEARCH_ILIKE selects ILIKE. */
  lemma SearchIlike()
    ensures SearchOperator(SEARCH_ILIKE) == "ILIKE"
  {
    SearchIlikeHasIlike();
  }

  lemma SearchRegexLacksLike()
    ensures !Contains(SEARCH_REGEX, "LIKE")
  {
    AbsentHead(SEARCH_REGEX, "LIKE");
  }

  lemma SearchRegexLacksIlike()
    ensures !Contains(SEARCH_REGEX, "ILIKE")
  {
    AbsentPair(SEARCH_REGEX, "ILIKE");
  }

  lemma SearchRegexHasTilde()
    ensures Contains(SEARCH_REGEX, "~")
  {
    ContainsAt(SEARCH_REGEX, "~", 0);
  }

  lemma SearchRegexHasPosix()
    ensures Contains(SEARCH_REGEX, "POSIX")
  {
    ContainsAt(SEARCH_REGEX, "POSIX", 3);
  }

  lemma SearchRegexLacksBangTildeStar()
    ensures !Contains(SEARCH_REGEX, "!~*")
  {
    AbsentHead(SEARCH_REGEX, "!~*");
  }

  lemma SearchRegexLacksBangTilde()
    ensures !Contains(SEARCH_REGEX, "!~")
  {
    AbsentHead(SEARCH_REGEX, "!~");
  }

  lemma SearchRegexLacksTildeStar()
    ensures !Contains(SEARCH_REGEX, "~*")
  {
    AbsentPair(SEARCH_REGEX, "~*");
  }

  /** The label SEARCH_REGEX selects ~. */
  lemma SearchRegex()
    ensures SearchOperator(SEARCH_REGEX) == "~"
  {
    SearchRegexLacksLike();
    SearchRegexLacksIlike();
    SearchRegexHasTilde();
    SearchRegexHasPosix();
    SearchRegexLacksBangTildeStar();
    SearchRegexLacksBangTilde();
    SearchRegexLacksTildeStar();
  }

  lemma SearchRegexCiLacksLike()
    ensures !Contains(SEARCH_REGEX_CI, "LIKE")
  {
    AbsentHead(SEARCH_REGEX_CI, "LIKE");
  }

  lemma SearchRegexCiLacksIlike()
    ensures !Contains(SEARCH_REGEX_CI, "ILIKE")
  {
    AbsentPair(SEARCH_REGEX_CI, "ILIKE");
  }

  lemma SearchRegexCiHasTilde()
    ensures Contains(SEARCH_REGEX_CI, "~")
  {
    ContainsAt(SEARCH_REGEX_CI, "~", 0);
  }

  lemma SearchRegexCiHasPosix()
    ensures Contains(SEARCH_REGEX_CI, "POSIX")
  {
    ContainsAt(SEARCH_REGEX_CI, "POSIX", 4);
  }

  lemma SearchRegexCiLacksBangTildeStar()
    ensures !Contains(SEARCH_REGEX_CI, "!~*")
  {
    AbsentHead(SEARCH_REGEX_CI, "!~*");
  }

  lemma SearchRegexCiLacksBangTilde()
    ensures !Contains(SEARCH_REGEX_CI, "!~")
  {
    AbsentHead(SEARCH_REGEX_CI, "!~");
  }

  lemma SearchRegexCiHasTildeStar()
    ensures Contains(SEARCH_REGEX_CI, "~*")
  {
    ContainsAt(SEARCH_REGEX_CI, "~*", 0);
  }

  /** The label SEARCH_REGEX_CI selects ~*. */
  lemma SearchRegexCi()
    ensures SearchOperator(SEARCH_REGEX_CI) == "~*"
  {
    SearchRegexCiLacksLike();
    SearchRegexCiLacksIlike();
    SearchRegexCiHasTilde();
    SearchRegexCiHasPosix();
    SearchRegexCiLacksBangTildeStar();
    SearchRegexCiLacksBangTilde();
    SearchRegexCiHasTildeStar();
  }

  lemma SearchNotRegexLacksLike()
    ensures !Contains(SEARCH_NOT_REGEX, "LIKE")
  {
    AbsentHead(SEARCH_NOT_REGEX, "LIKE");
  }

  lemma SearchNotRegexLacksIlike()
    ensures !Contains(SEARCH_NOT_REGEX, "ILIKE")
  {
    AbsentPair(SEARCH_NOT_REGEX, "ILIKE");
  }

  lemma SearchNotRegexHasTilde()
    ensures Contains(SEARCH_NOT_REGEX, "~")
  {
    ContainsAt(SEARCH_NOT_REGEX, "~", 1);
  }

  lemma SearchNotRegexHasPosix()
    ensures Contains(SEARCH_NOT_REGEX, "POSIX")
  {
    ContainsAt(SEARCH_NOT_REGEX, "POSIX", 4);
  }

  lemma SearchNotRegexLacksBangTildeStar()
    ensures !Contains(SEARCH_NOT_REGEX, "!~*")
  {
    AbsentTriple(SEARCH_NOT_REGEX, "!~*");
  }

  lemma SearchNotRegexHasBangTilde()
    ensures Contains(SEARCH_NOT_REGEX, "!~")
  {
    ContainsAt(SEARCH_NOT_REGEX, "!~", 0);
  }

  /** The label SEARCH_NOT_REGEX selects !~. */
  lemma SearchNotRegex()
    ensures SearchOperator(SEARCH_NOT_REGEX) == "!~"
  {
    SearchNotRegexLacksLike();
    SearchNotRegexLacksIlike();
    SearchNotRegexHasTilde();
    SearchNotRegexHasPosix();
    SearchNotRegexLacksBangTildeStar();
    SearchNotRegexHasBangTilde();
  }

  lemma SearchNotRegexCiLacksLike()
    ensures !Contains(SEARCH_NOT_REGEX_CI, "LIKE")
  {
    AbsentHead(SEARCH_NOT_REGEX_CI, "LIKE");
  }

  lemma SearchNotRegexCiLacksIlike()
    ensures !Contains(SEARCH_NOT_REGEX_CI, "ILIKE")
  {
    AbsentPair(SEARCH_NOT_REGEX_CI, "ILIKE");
  }

  lemma SearchNotRegexCiHasTilde()
    ensures Contains(SEARCH_NOT_REGEX_CI, "~")
  {
    ContainsAt(SEARCH_NOT_REGEX_CI, "~", 1);
  }

  lemma SearchNotRegexCiHasPosix()
    ensures Contains(SEARCH_NOT_REGEX_CI, "POSIX")
  {
    ContainsAt(SEARCH_NOT_REGEX_CI, "POSIX", 5);
  }

  lemma SearchNotRegexCiHasBangTildeStar()
    ensures Contains(SEARCH_NOT_REGEX_CI, "!~*")
  {
    ContainsAt(SEARCH_NOT_REGEX_CI, "!~*", 0);
  }

  /** The label SEARCH_NOT_REGEX_CI selects !~*. */
  lemma SearchNotRegexCi()
    ensures SearchOperator(SEARCH_NOT_REGEX_CI) == "!~*"
  {
    SearchNotRegexCiLacksLike();
    SearchNotRegexCiLacksIlike();
    SearchNotRegexCiHasTilde();
    SearchNotRegexCiHasPosix();
    SearchNotRegexCiHasBangTildeStar();
  }

  lemma SearchSimilarLacksLike()
    ensures !Contains(SEARCH_SIMILAR, "LIKE")
  {
    AbsentPair(SEARCH_SIMILAR, "LIKE");
  }

  lemma SearchSimilarLacksIlike()
    ensures !Contains(SEARCH_SIMILAR, "ILIKE")
  {
    AbsentTriple(SEARCH_SIMILAR, "ILIKE");
  }

  lemma SearchSimilarLacksTilde()
    ensures !Contains(SEARCH_SIMILAR, "~")
  {
    AbsentHead(SEARCH_SIMILAR, "~");
  }

  lemma SearchSimilarHasSimilarTo()
    ensures Contains(SEARCH_SIMILAR, "SIMILAR TO")
  {
    ContainsAt(SEARCH_SIMILAR, "SIMILAR TO", 0);
  }

  lemma SearchSimilarLacksNot()
    ensures !Contains(SEARCH_SIMILAR, "NOT")
  {
    AbsentHead(SEARCH_SIMILAR, "NOT");
  }

  /** The label SEARCH_SIMILAR selects SIMILAR TO. */
  lemma SearchSimilar()
    ensures SearchOperator(SEARCH_SIMILAR) == "SIMILAR TO"
  {
    SearchSimilarLacksLike();
    SearchSimilarLacksIlike();
    SearchSimilarLacksTilde();
    SearchSimilarHasSimilarTo();
    SearchSimilarLacksNot();
  }

  lemma SearchNotSimilarLacksLike()
    ensures !Contains(SEARCH_NOT_SIMILAR, "LIKE")
  {
    AbsentPair(SEARCH_NOT_SIMILAR, "LIKE");
  }

  lemma SearchNotSimilarLacksIlike()
    ensures !Contains(SEARCH_NOT_SIMILAR, "ILIKE")
  {
    AbsentTriple(SEARCH_NOT_SIMILAR, "ILIKE");
  }

  lemma SearchNotSimilarLacksTilde()
    ensures !Contains(SEARCH_NOT_SIMILAR, "~")
  {
    AbsentHead(SEARCH_NOT_SIMILAR, "~");
  }

  lemma SearchNotSimilarHasSimilarTo()
    ensures Contains(SEARCH_NOT_SIMILAR, "SIMILAR TO")
  {
    ContainsAt(SEARCH_NOT_SIMILAR, "SIMILAR TO", 4);
  }

  lemma SearchNotSimilarHasNot()
    ensures Contains(SEARCH_NOT_SIMILAR, "NOT")
  {
    ContainsAt(SEARCH_NOT_SIMILAR, "NOT", 0);
  }

  /** The label SEARCH_NOT_SIMILAR selects NOT SIMILAR TO. */
  lemma SearchNotSimilar()
    ensures SearchOperator(SEARCH_NOT_SIMILAR) == "NOT SIMILAR TO"
  {
    SearchNotSimilarLacksLike();
    SearchNotSimilarLacksIlike();
    SearchNotSimilarLacksTilde();
    SearchNotSimilarHasSimilarTo();
    SearchNotSimilarHasNot();
  }

  /** Each of the eight search labels selects exactly the operator it names at its start. */
  lemma SearchLabelsSelectTheirOperator()
    ensures forall i :: 0 <= i < |SEARCH_LABELS| ==> SearchOperator(SEARCH_LABELS[i]) == SEARCH_OPERATORS[i]
  {
    forall i | 0 <= i < |SEARCH_LABELS| ensures SearchOperator(SEARCH_LABELS[i]) == SEARCH_OPERATORS[i] {
      if i == 0 { assert SEARCH_LABELS[i] == SEARCH_LIKE; SearchLike(); }
      else if i == 1 { assert SEARCH_LABELS[i] == SEARCH_ILIKE; SearchIlike(); }
      else if i == 2 { assert SEARCH_LABELS[i] == SEARCH_REGEX; SearchRegex(); }
      else if i == 3 { assert SEARCH_LABELS[i] == SEARCH_REGEX_CI; SearchRegexCi(); }
      else if i == 4 { assert SEARCH_LABELS[i] == SEARCH_NOT_REGEX; SearchNotRegex(); }
      else if i == 5 { assert SEARCH_LABELS[i] == SEARCH_NOT_REGEX_CI; SearchNotRegexCi(); }
      else if i == 6 { assert SEARCH_LABELS[i] == SEARCH_SIMILAR; SearchSimilar(); }
      else { assert SEARCH_LABELS[i] == SEARCH_NOT_SIMILAR; SearchNotSimilar(); }
    }
  }

  /** The state of the text-search tab. */
  datatype SearchForm = SearchForm(column: Option<string>, patternText: string, methodText: string, table: Option<string>)

  const PATTERN_REQUIRED := "Введите шаблон поиска"

  /** ` WHERE ("c"::text) op 'p'`: the search condition, the pattern inserted unescaped. */
  function SearchCondition(column: string, op: string, pattern: string): string {
    " WHERE (" + QuoteIdent(column) + "::text) " + op + " " + QuoteRaw(pattern)
  }

  /** `SELECT * FROM ddos."t" WHERE ("c"::text) op 'p'` */
  function SearchSql(table: string, column: string, op: string, pattern: string): string {
    "SELECT * FROM " + TableSql(table) + SearchCondition(column, op, pattern)
  }

  /** `execute_search`: a blank pattern is refused first; a missing column makes `quote_ident` raise. */
  function SearchAction(f: SearchForm): (r: Action)
    ensures r.Warn? <==> Strip(f.patternText) == ""
    ensures r.Warn? ==> r.message == PATTERN_REQUIRED
    ensures r.Raise? <==> Strip(f.patternText) != "" && f.column.None?
    ensures r.Execute? ==> r.sql == SearchSql(OrDefault(f.table, DEFAULT_TABLE), f.column.value, SearchOperator(f.methodText), Strip(f.patternText))
  {
    var pattern := Strip(f.patternText);
    if pattern == "" then Warn(PATTERN_REQUIRED)
    else if f.column.None? then Raise
    else Execute(SearchSql(OrDefault(f.table, DEFAULT_TABLE), f.column.value, SearchOperator(f.methodText), pattern))
  }

  /**
    A search statement reads back as what was chosen: after `SELECT * FROM ddos.` the
    table, then after ` WHERE (` the column, then the operator and the pattern in quotes.
   */
  lemma SearchSqlReadBack(table: string, column: string, op: string, pattern: string)
    ensures var s := SearchSql(table, column, op, pattern);
            var cond := SearchCondition(column, op, pattern);
            && s[..19] == "SELECT * FROM " + SCHEMA + "."
            && ReadQuoted(s[19..], '"') == Some((table, cond))
            && cond[..8] == " WHERE ("
            && ReadQuoted(cond[8..], '"') == Some((column, "::text) " + op + " " + QuoteRaw(pattern)))
  {
    var cond := SearchCondition(column, op, pattern);
    TableSqlReadBack("SELECT * FROM ", table, cond);
    var tail := "::text) " + op + " " + QuoteRaw(pattern);
    assert cond == " WHERE (" + QuoteIdent(column) + tail;
    assert cond[8..] == QuoteIdent(column) + tail;
    QuoteIdentReadBack(column, tail);
  }

  /** A blank pattern never reaches the database, whatever else is chosen. */
  lemma SearchNeedsPattern(f: SearchForm)
    ensures SearchAction(f).Execute? ==> Strip(f.patternText) != "" && f.column.Some?
  {
  }

  // ---------------------------------------------------------------------------
  // `execute_strings`

  datatype StringFunction = Upper | Lower | Substring | Trim | Lpad | Rpad | Concat | NoFunction

  /** The SQL name of each string function. */
  function FunctionName(fn: StringFunction): string {
    match fn
    case Upper => "UPPER"
    case Lower => "LOWER"
    case Substring => "SUBSTRING"
    case Trim => "TRIM"
    case Lpad => "LPAD"
    case Rpad => "RPAD"
    case Concat => "CONCAT"
    case NoFunction => ""
  }

  /** The function chosen from the label, by the source's chain of substring tests. */
  function StringFunctionOf(choice: string): StringFunction {
    if Contains(choice, "UPPER") then Upper
    else if Contains(choice, "LOWER") then Lower
    else if Contains(choice, "SUBSTRING") then Substring
    else if Contains(choice, "TRIM") then Trim
    else if Contains(choice, "LPAD") then Lpad
    else if Contains(choice, "RPAD") then Rpad
    else if Contains(choice, "CONCAT") then Concat
    else NoFunction
  }

  const STRING_UPPER := "UPPER (Сделать ЗАГЛАВНЫМИ)"
  const STRING_LOWER := "LOWER (сделать строчными)"
  const STRING_TRIM := "TRIM (Удалить пробелы по краям)"
  const STRING_SUBSTRING := "SUBSTRING (Вырезать часть текста)"
  const STRING_CONCAT := "CONCAT (Объединить с другим текстом)"
  const STRING_LPAD := "LPAD (Дополнить символами слева)"
  const STRING_RPAD := "RPAD (Дополнить символами справа)"

  /** The string-function combo's labels, in order, and the function each one names at its start. */
  const STRING_LABELS: seq<string> := [STRING_UPPER, STRING_LOWER, STRING_TRIM, STRING_SUBSTRING, STRING_CONCAT, STRING_LPAD, STRING_RPAD]
  const STRING_FUNCTIONS: seq<StringFunction> := [Upper, Lower, Trim, Substring, Concat, Lpad, Rpad]

  lemma StringUpperHasUpper()
    ensures Contains(STRING_UPPER, "UPPER")
  {
    ContainsAt(STRING_UPPER, "UPPER", 0);
  }
  /** The label STRING_UPPER selects Upper. */
  lemma StringUpper()
    ensures StringFunctionOf(STRING_UPPER) == Upper
  {
    StringUpperHasUpper();
  }
  lemma StringLowerLacksUpper()
    ensures !Contains(STRING_LOWER, "UPPER")
  {
    AbsentHead(STRING_LOWER, "UPPER");
  }
  lemma StringLowerHasLower()
    ensures Contains(STRING_LOWER, "LOWER")
  {
    ContainsAt(STRING_LOWER, "LOWER", 0);
  }
  /** The label STRING_LOWER selects Lower. */
  lemma StringLower()
    ensures StringFunctionOf(STRING_LOWER) == Lower
  {
    StringLowerLacksUpper();
    StringLowerHasLower();
  }
  lemma StringTrimLacksUpper()
    ensures !Contains(STRING_TRIM, "UPPER")
  {
    AbsentHead(STRING_TRIM, "UPPER");
  }
  lemma StringTrimLacksLower()
    ensures !Contains(STRING_TRIM, "LOWER")
  {
    AbsentHead(STRING_TRIM, "LOWER");
  }
  lemma StringTrimLacksSubstring()
    ensures !Contains(STRING_TRIM, "SUBSTRING")
  {
    AbsentHead(STRING_TRIM, "SUBSTRING");
  }
  lemma StringTrimHasTrim()
    ensures Contains(STRING_TRIM, "TRIM")
  {
    ContainsAt(STRING_TRIM, "TRIM", 0);
  }
  /** The label STRING_TRIM selects Trim. */
  lemma StringTrim()
    ensures StringFunctionOf(STRING_TRIM) == Trim
  {
    StringTrimLacksUpper();
    StringTrimLacksLower();
    StringTrimLacksSubstring();
    StringTrimHasTrim();
  }
  lemma StringSubstringLacksUpper()
    ensures !Contains(STRING_SUBSTRING, "UPPER")
  {
    AbsentPair(STRING_SUBSTRING, "UPPER");
  }
  lemma StringSubstringLacksLower()
    ensures !Contains(STRING_SUBSTRING, "LOWER")
  {
    AbsentHead(STRING_SUBSTRING, "LOWER");
  }
  lemma StringSubstringHasSubstring()
    ensures Contains(STRING_SUBSTRING, "SUBSTRING")
  {
    ContainsAt(STRING_SUBSTRING, "SUBSTRING", 0);
  }
  /** The label STRING_SUBSTRING selects Substring. */
  lemma StringSubstring()
    ensures StringFunctionOf(STRING_SUBSTRING) == Substring
  {
    StringSubstringLacksUpper();
    StringSubstringLacksLower();
    StringSubstringHasSubstring();
  }
  lemma StringConcatLacksUpper()
    ensures !Contains(STRING_CONCAT, "UPPER")
  {
    AbsentHead(STRING_CONCAT, "UPPER");
  }
  lemma StringConcatLacksLower()
    ensures !Contains(STRING_CONCAT, "LOWER")
  {
    AbsentHead(STRING_CONCAT, "LOWER");
  }
  lemma StringConcatLacksSubstring()
    ensures !Contains(STRING_CONCAT, "SUBSTRING")
  {
    AbsentHead(STRING_CONCAT, "SUBSTRING");
  }
  lemma StringConcatLacksTrim()
    ensures !Contains(STRING_CONCAT, "TRIM")
  {
    AbsentPair(STRING_CONCAT, "TRIM");
  }
  lemma StringConcatLacksLpad()
    ensures !Contains(STRING_CONCAT, "LPAD")
  {
    AbsentHead(STRING_CONCAT, "LPAD");
  }
  lemma StringConcatLacksRpad()
    ensures !Contains(STRING_CONCAT, "RPAD")
  {
    AbsentHead(STRING_CONCAT, "RPAD");
  }
  lemma StringConcatHasConcat()
    ensures Contains(STRING_CONCAT, "CONCAT")
  {
    ContainsAt(STRING_CONCAT, "CONCAT", 0);
  }
  /** The label STRING_CONCAT selects Concat. */
  lemma StringConcat()
    ensures StringFunctionOf(STRING_CONCAT) == Concat
  {
    StringConcatLacksUpper();
    StringConcatLacksLower();
    StringConcatLacksSubstring();
    StringConcatLacksTrim();
    StringConcatLacksLpad();
    StringConcatLacksRpad();
    StringConcatHasConcat();
  }
  lemma StringLpadLacksUpper()
    ensures !Contains(STRING_LPAD, "UPPER")
  {
    AbsentHead(STRING_LPAD, "UPPER");
  }
  lemma StringLpadLacksLower()
    ensures !Contains(STRING_LPAD, "LOWER")
  {
    AbsentPair(STRING_LPAD, "LOWER");
  }
  lemma StringLpadLacksSubstring()
    ensures !Contains(STRING_LPAD, "SUBSTRING")
  {
    AbsentHead(STRING_LPAD, "SUBSTRING");
  }
  lemma StringLpadLacksTrim()
    ensures !Contains(STRING_LPAD, "TRIM")
  {
    AbsentHead(STRING_LPAD, "TRIM");
  }
  lemma StringLpadHasLpad()
    ensures Contains(STRING_LPAD, "LPAD")
  {
    ContainsAt(STRING_LPAD, "LPAD", 0);
  }
  /** The label STRING_LPAD selects Lpad. */
  lemma StringLpad()
    ensures StringFunctionOf(STRING_LPAD) == Lpad
  {
    StringLpadLacksUpper();
    StringLpadLacksLower();
    StringLpadLacksSubstring();
    StringLpadLacksTrim();
    StringLpadHasLpad();
  }
  lemma StringRpadLacksUpper()
    ensures !Contains(STRING_RPAD, "UPPER")
  {
    AbsentHead(STRING_RPAD, "UPPER");
  }
  lemma StringRpadLacksLower()
    ensures !Contains(STRING_RPAD, "LOWER")
  {
    AbsentHead(STRING_RPAD, "LOWER");
  }
  lemma StringRpadLacksSubstring()
    ensures !Contains(STRING_RPAD, "SUBSTRING")
  {
    AbsentHead(STRING_RPAD, "SUBSTRING");
  }
  lemma StringRpadLacksTrim()
    ensures !Contains(STRING_RPAD, "TRIM")
  {
    AbsentHead(STRING_RPAD, "TRIM");
  }
  lemma StringRpadLacksLpad()
    ensures !Contains(STRING_RPAD, "LPAD")
  {
    AbsentHead(STRING_RPAD, "LPAD");
  }
  lemma StringRpadHasRpad()
    ensures Contains(STRING_RPAD, "RPAD")
  {
    ContainsAt(STRING_RPAD, "RPAD", 0);
  }
  /** The label STRING_RPAD selects Rpad. */
  lemma StringRpad()
    ensures StringFunctionOf(STRING_RPAD) == Rpad
  {
    StringRpadLacksUpper();
    StringRpadLacksLower();
    StringRpadLacksSubstring();
    StringRpadLacksTrim();
    StringRpadLacksLpad();
    StringRpadHasRpad();
  }
  /** Each of the seven string-function labels selects exactly the function it names at its start. */
  lemma StringLabelsSelectTheirFunction()
    ensures forall i :: 0 <= i < |STRING_LABELS| ==> StringFunctionOf(STRING_LABELS[i]) == STRING_FUNCTIONS[i]
  {
    forall i | 0 <= i < |STRING_LABELS| ensures StringFunctionOf(STRING_LABELS[i]) == STRING_FUNCTIONS[i] {
      if i == 0 { assert STRING_LABELS[i] == STRING_UPPER; StringUpper(); }
      else if i == 1 { assert STRING_LABELS[i] == STRING_LOWER; StringLower(); }
      else if i == 2 { assert STRING_LABELS[i] == STRING_TRIM; StringTrim(); }
      else if i == 3 { assert STRING_LABELS[i] == STRING_SUBSTRING; StringSubstring(); }
      else if i == 4 { assert STRING_LABELS[i] == STRING_CONCAT; StringConcat(); }
      else if i == 5 { assert STRING_LABELS[i] == STRING_LPAD; StringLpad(); }
      else { assert STRING_LABELS[i] == STRING_RPAD; StringRpad(); }
    }
  }

  /** The state of the string-functions tab. */
  datatype StringsForm = StringsForm(column: Option<string>, functionText: string, param1Text: string, param2Text: string, table: Option<string>)

  const START_AND_LENGTH_REQUIRED := "Укажите начало и длину"
  const LENGTH_REQUIRED := "Укажите длину"

  /** `"c"::text`, or the empty column name itself when it is empty. */
  function ColumnText(column: string): string {
    if column != "" then QuoteIdent(column) + "::text" else column
  }

  /** The pad argument of LPAD/RPAD: the second parameter quoted, or one blank. */
  function PadArgument(p2: string): (r: string)
    ensures p2 == "" ==> r == "' '"
    ensures p2 != "" ==> r == QuoteRaw(p2)
  {
    if p2 != "" then QuoteRaw(p2) else "' '"
  }

  /** The arguments of CONCAT: the column, then each non-blank parameter quoted, in order. */
  function ConcatArguments(column: string, p1: string, p2: string): (r: seq<string>)
    ensures |r| == 1 + (if p1 != "" then 1 else 0) + (if p2 != "" then 1 else 0)
    ensures r[0] == ColumnText(column)
    ensures p1 != "" ==> r[1] == QuoteRaw(p1)
    ensures p2 != "" ==> r[|r| - 1] == QuoteRaw(p2)
  {
    [ColumnText(column)] + (if p1 != "" then [QuoteRaw(p1)] else []) + (if p2 != "" then [QuoteRaw(p2)] else [])
  }

  /** Which (stripped) parameters the function is missing, as the warning to give. */
  function MissingParameters(fn: StringFunction, p1: string, p2: string): Option<string> {
    if fn == Substring && (p1 == "" || p2 == "") then Some(START_AND_LENGTH_REQUIRED)
    else if (fn == Lpad || fn == Rpad) && p1 == "" then Some(LENGTH_REQUIRED)
    else None
  }

  /** Inside an LPAD/RPAD call: the column cast to text, the length, the pad character. */
  function PadArguments(col: string, p1: string, p2: string): string {
    col + "::text, " + p1 + (", " + PadArgument(p2))
  }

  /** What goes between the parentheses of the chosen function. */
  function CallArguments(fn: StringFunction, column: string, p1: string, p2: string): string {
    var col := ColumnText(column);
    match fn
    case Upper => col
    case Lower => col
    case Substring => col + " FROM " + p1 + " FOR " + p2
    case Trim => col
    case Lpad => PadArguments(col, p1, p2)
    case Rpad => PadArguments(col, p1, p2)
    case Concat => Join(ConcatArguments(column, p1, p2), ", ")
    case NoFunction => ""
  }

  /** A call text starts with its opening and ends with `)`. */
  lemma CallShape(open: string, args: string)
    ensures StartsWith(open + args + ")", open) && EndsWith(open + args + ")", ")")
  {
    assert (open + args + ")")[..|open|] == open;
    assert (open + args + ")")[|open + args|..] == ")";
  }

  /** The selected expression; with no function recognised, the raw column name. */
  function StringExpression(fn: StringFunction, column: string, p1: string, p2: string): (r: string)
    ensures fn != NoFunction ==> StartsWith(r, FunctionName(fn) + "(") && EndsWith(r, ")")
    ensures fn == NoFunction ==> r == column
  {
    if fn == NoFunction then column
    else
      CallShape(FunctionName(fn) + "(", CallArguments(fn, column, p1, p2));
      FunctionName(fn) + "(" + CallArguments(fn, column, p1, p2) + ")"
  }

  /** `SELECT "c", e AS result FROM ddos."t"` */
  function StringsSql(column: string, e: string, table: string): string {
    "SELECT " + QuoteIdent(column) + ", " + e + " AS result FROM " + TableSql(table)
  }

  /** `execute_strings`: a missing parameter is refused first; a missing column then makes `quote_ident` raise. */
  function StringsAction(f: StringsForm): (r: Action)
    ensures var fn, p1, p2 := StringFunctionOf(f.functionText), Strip(f.param1Text), Strip(f.param2Text);
            && (r.Warn? <==> MissingParameters(fn, p1, p2).Some?)
            && (r.Warn? ==> r.message == MissingParameters(fn, p1, p2).value)
            && (r.Raise? <==> MissingParameters(fn, p1, p2).None? && f.column.None?)
            && (r.Execute? ==> r.sql == StringsSql(f.column.value, StringExpression(fn, f.column.value, p1, p2), OrDefault(f.table, DEFAULT_TABLE)))
  {
    var fn, p1, p2 := StringFunctionOf(f.functionText), Strip(f.param1Text), Strip(f.param2Text);
    match MissingParameters(fn, p1, p2)
    case Some(message) => Warn(message)
    case None =>
      if f.column.None? then Raise
      else
        var c := f.column.value;
        Execute(StringsSql(c, StringExpression(fn, c, p1, p2), OrDefault(f.table, DEFAULT_TABLE)))
  }

  /** With the SUBSTRING label, the action warns iff the start or the length is blank after stripping. */
  lemma SubstringNeedsStartAndLength(f: StringsForm)
    requires f.functionText == STRING_SUBSTRING
    ensures var r := StringsAction(f);
            && (r.Warn? <==> (Strip(f.param1Text) == "" || Strip(f.param2Text) == ""))
            && (r.Warn? ==> r.message == START_AND_LENGTH_REQUIRED)
  {
    StringSubstring();
    StringsWarning(f, Substring);
  }

  /** With the LPAD or RPAD label, the action warns iff the length is blank after stripping. */
  lemma PadNeedsLength(f: StringsForm)
    requires f.functionText == STRING_LPAD || f.functionText == STRING_RPAD
    ensures var r := StringsAction(f);
            && (r.Warn? <==> Strip(f.param1Text) == "")
            && (r.Warn? ==> r.message == LENGTH_REQUIRED)
  {
    if f.functionText == STRING_LPAD {
      StringLpad();
      StringsWarning(f, Lpad);
    }
    if f.functionText == STRING_RPAD {
      StringRpad();
      StringsWarning(f, Rpad);
    }
  }

  /** With a label of the combo whose function is UPPER, LOWER, TRIM or CONCAT, the action never warns. */
  lemma OtherFunctionsNeedNoParameters(f: StringsForm, i: nat)
    requires i < |STRING_LABELS| && f.functionText == STRING_LABELS[i]
    requires STRING_FUNCTIONS[i] in {Upper, Lower, Trim, Concat}
    ensures !StringsAction(f).Warn?
  {
    StringLabelsSelectTheirFunction();
    StringsWarning(f, STRING_FUNCTIONS[i]);
  }

  /** Whether the action warns, and with which message, depends only on the function and the stripped parameters. */
  lemma StringsWarning(f: StringsForm, fn: StringFunction)
    requires StringFunctionOf(f.functionText) == fn
    ensures var m := MissingParameters(fn, Strip(f.param1Text), Strip(f.param2Text));
            && (StringsAction(f).Warn? <==> m.Some?)
            && (StringsAction(f).Warn? ==> StringsAction(f).message == m.value)
  {
  }

  /**
    A string-function statement selects the chosen column first, then the expression
    under the name `result`, from the chosen table, which reads back at its end.
   */
  lemma StringsSqlReadBack(column: string, e: string, table: string)
    ensures var s := StringsSql(column, e, table);
            var prefix := "SELECT " + QuoteIdent(column) + ", " + e + " AS result FROM ";
            && s[..7] == "SELECT "
            && ReadQuoted(s[7..], '"') == Some((column, ", " + e + " AS result FROM " + TableSql(table)))
            && s[|prefix|..|prefix| + 5] == SCHEMA + "."
            && ReadQuoted(s[|prefix| + 5..], '"') == Some((table, ""))
  {
    var s := StringsSql(column, e, table);
    var head, q := "SELECT ", QuoteIdent(column);
    var tail := ", " + e + " AS result FROM " + TableSql(table);
    var prefix := head + q + ", " + e + " AS result FROM ";
    PeelTwo(head, q, ", ", e, " AS result FROM ", TableSql(table));
    PrefixStarts(head, q + tail);
    DropPrefix(head, q + tail);
    QuoteIdentReadBack(column, tail);
    AppendEmpty(s);
    TableSqlReadBack(prefix, table, "");
  }

  lemma PeelTwo(a: string, b: string, c: string, d: string, x: string, y: string)
    ensures a + b + c + d + x + y == a + (b + (c + d + x + y))
  {
  }

  /** LPAD and RPAD pad with the quoted second parameter, or with one blank when it is blank. */
  lemma PadDefaultsToBlank(fn: StringFunction, column: string, p1: string, p2: string)
    requires fn == Lpad || fn == Rpad
    ensures p2 == "" ==> EndsWith(StringExpression(fn, column, p1, p2), ", ' ')")
    ensures p2 != "" ==> EndsWith(StringExpression(fn, column, p1, p2), ", " + QuoteRaw(p2) + ")")
  {
    var open := FunctionName(fn) + "(";
    assert StringExpression(fn, column, p1, p2) == open + PadArguments(ColumnText(column), p1, p2) + ")";
    PadCallEnds(open, ColumnText(column), p1, p2);
  }

  /** A pad call, with whatever name and column, ends with its pad character and `)`. */
  lemma PadCallEnds(open: string, col: string, p1: string, p2: string)
    ensures EndsWith(open + PadArguments(col, p1, p2) + ")", ", " + PadArgument(p2) + ")")
  {
    var front, back := col + "::text, " + p1, ", " + PadArgument(p2);
    assert open + (front + back) + ")" == open + front + (back + ")");
    SuffixEnds(open + front, back + ")");
  }

  // ---------------------------------------------------------------------------
  // `execute_join`

  /** The JOIN keyword from the label: its first word and ` JOIN`, and `FULL JOIN` whenever it mentions FULL. */
  function JoinKeyword(choice: string): (r: string)
    ensures EndsWith(r, " JOIN")
    ensures Contains(choice, "FULL") ==> r == "FULL JOIN"
    ensures !Contains(choice, "FULL") ==> r == FirstWord(choice) + " JOIN"
  {
    if Contains(choice, "FULL") then "FULL JOIN" else FirstWord(choice) + " JOIN"
  }

  /** Without FULL in it, a label selects its first word and ` JOIN`. */
  lemma JoinKeywordOfWord(choice: string, w: string)
    requires !Contains(choice, "FULL") && FirstWord(choice) == w
    ensures JoinKeyword(choice) == w + " JOIN"
  {
  }

  // Split into the first word and the rest only so that `FirstWord` stays cheap to evaluate.
  const JOIN_INNER := "INNER" + " " + "JOIN (Только совпадения)"
  const JOIN_LEFT := "LEFT" + " " + "JOIN (Все из левой + совпадения)"
  const JOIN_RIGHT := "RIGHT" + " " + "JOIN (Все из правой + совпадения)"
  const JOIN_FULL := "FULL JOIN (Все записи из обеих)"

  /** The join-type combo's labels, in order, and the keyword each one names at its start. */
  const JOIN_LABELS: seq<string> := [JOIN_INNER, JOIN_LEFT, JOIN_RIGHT, JOIN_FULL]
  const JOIN_KEYWORDS: seq<string> := ["INNER JOIN", "LEFT JOIN", "RIGHT JOIN", "FULL JOIN"]

  lemma JoinInnerLacksFull()
    ensures !Contains(JOIN_INNER, "FULL")
  {
    AbsentHead(JOIN_INNER, "FULL");
  }

  lemma JoinInnerFirstWord()
    ensures FirstWord(JOIN_INNER) == "INNER"
  {
    FirstWordOf("INNER", "JOIN (Только совпадения)");
  }

  lemma JoinInner()
    ensures JoinKeyword(JOIN_INNER) == "INNER" + " JOIN"
  {
    JoinInnerLacksFull();
    JoinInnerFirstWord();
    JoinKeywordOfWord(JOIN_INNER, "INNER");
  }

  lemma JoinLeftLacksFull()
    ensures !Contains(JOIN_LEFT, "FULL")
  {
    AbsentPair(JOIN_LEFT, "FULL");
  }

  lemma JoinLeftFirstWord()
    ensures FirstWord(JOIN_LEFT) == "LEFT"
  {
    FirstWordOf("LEFT", "JOIN (Все из левой + совпадения)");
  }

  lemma JoinLeft()
    ensures JoinKeyword(JOIN_LEFT) == "LEFT" + " JOIN"
  {
    JoinLeftLacksFull();
    JoinLeftFirstWord();
    JoinKeywordOfWord(JOIN_LEFT, "LEFT");
  }

  lemma JoinRightLacksFull()
    ensures !Contains(JOIN_RIGHT, "FULL")
  {
    AbsentHead(JOIN_RIGHT, "FULL");
  }

  lemma JoinRightFirstWord()
    ensures FirstWord(JOIN_RIGHT) == "RIGHT"
  {
    FirstWordOf("RIGHT", "JOIN (Все из правой + совпадения)");
  }

  lemma JoinRight()
    ensures JoinKeyword(JOIN_RIGHT) == "RIGHT" + " JOIN"
  {
    JoinRightLacksFull();
    JoinRightFirstWord();
    JoinKeywordOfWord(JOIN_RIGHT, "RIGHT");
  }

  lemma JoinFull()
    ensures JoinKeyword(JOIN_FULL) == "FULL JOIN"
  {
    ContainsAt(JOIN_FULL, "FULL", 0);
  }

  lemma JoinKeywordsSpelled()
    ensures "INNER" + " JOIN" == "INNER JOIN" && "LEFT" + " JOIN" == "LEFT JOIN" && "RIGHT" + " JOIN" == "RIGHT JOIN"
  {
  }

  /** Each of the four join labels selects exactly the keyword it names at its start. */
  lemma JoinLabelsSelectTheirKeyword()
    ensures forall i :: 0 <= i < |JOIN_LABELS| ==> JoinKeyword(JOIN_LABELS[i]) == JOIN_KEYWORDS[i]
  {
    JoinKeywordsSpelled();
    forall i | 0 <= i < |JOIN_LABELS| ensures JoinKeyword(JOIN_LABELS[i]) == JOIN_KEYWORDS[i] {
      if i == 0 { assert JOIN_LABELS[i] == JOIN_INNER; JoinInner(); }
      else if i == 1 { assert JOIN_LABELS[i] == JOIN_LEFT; JoinLeft(); }
      else if i == 2 { assert JOIN_LABELS[i] == JOIN_RIGHT; JoinRight(); }
      else { assert JOIN_LABELS[i] == JOIN_FULL; JoinFull(); }
    }
  }

  /** The state of the JOIN tab. */
  datatype JoinForm = JoinForm(typeText: string, table1: Option<string>, table2: Option<string>,
                               field1: Option<string>, field2: Option<string>, columnsText: string)

  const BOTH_TABLES_REQUIRED := "Укажите обе таблицы"
  const LINK_FIELDS_REQUIRED := "Выберите поля для связывания"

  /** ` t1 <JOIN> ddos."t2" t2 ON t1."f1" = t2."f2"`: everything after the first table. */
  function JoinTail(keyword: string, table2: string, field1: string, field2: string): string {
    " t1 " + keyword + " " + TableSql(table2) + " t2 ON " + ("t1." + QuoteIdent(field1) + " = t2." + QuoteIdent(field2))
  }

  /** `execute_join`: both tables, then both link fields, must be chosen; blank column text selects `*`. */
  function JoinAction(f: JoinForm): (r: Action)
    ensures r != Raise
    ensures r.Warn? <==> !(Truthy(f.table1) && Truthy(f.table2) && Truthy(f.field1) && Truthy(f.field2))
    ensures !(Truthy(f.table1) && Truthy(f.table2)) ==> r == Warn(BOTH_TABLES_REQUIRED)
    ensures r.Execute? ==> StartsWith(r.sql, "SELECT ")
  {
    if !Truthy(f.table1) || !Truthy(f.table2) then Warn(BOTH_TABLES_REQUIRED)
    else if !Truthy(f.field1) || !Truthy(f.field2) then Warn(LINK_FIELDS_REQUIRED)
    else
      var tail := JoinTail(JoinKeyword(f.typeText), f.table2.value, f.field1.value, f.field2.value);
      Execute(JoinSql(JoinColumns(f.columnsText), f.table1.value, tail))
  }

  /** `SELECT <columns> FROM ddos."t1"` followed by the join. */
  function JoinSql(columns: string, table1: string, tail: string): (r: string)
    ensures StartsWith(r, "SELECT ")
  {
    var rest := columns + " FROM " + TableSql(table1) + tail;
    assert "SELECT " + columns + " FROM " + TableSql(table1) + tail == "SELECT " + rest;
    PrefixStarts("SELECT ", rest);
    "SELECT " + columns + " FROM " + TableSql(table1) + tail
  }

  /** The column list of a JOIN statement: the stripped text, or `*` when it is blank. */
  function JoinColumns(columnsText: string): (r: string)
    ensures r != ""
    ensures Strip(columnsText) == "" ==> r == "*"
    ensures Strip(columnsText) != "" ==> r == Strip(columnsText)
  {
    if Strip(columnsText) == "" then "*" else Strip(columnsText)
  }

  /**
    A JOIN statement opens with its column list and `FROM ddos.`, then names the
    first table, followed by the join.
   */
  lemma JoinReadBack(f: JoinForm)
    requires JoinAction(f).Execute?
    ensures var prefix := "SELECT " + JoinColumns(f.columnsText) + " FROM ";
            && StartsWith(JoinAction(f).sql, prefix + SCHEMA + ".")
            && ReadQuoted(JoinAction(f).sql[|prefix| + 5..], '"')
                 == Some((f.table1.value, JoinTail(JoinKeyword(f.typeText), f.table2.value, f.field1.value, f.field2.value)))
  {
    var columns := JoinColumns(f.columnsText);
    var keyword := JoinKeyword(f.typeText);
    var tail := JoinTail(keyword, f.table2.value, f.field1.value, f.field2.value);
    assert JoinAction(f).sql == JoinSql(columns, f.table1.value, tail);
    JoinTailOpens(keyword, f.table2.value, f.field1.value, f.field2.value);
    JoinSqlReadBack(columns, f.table1.value, tail);
  }

  /** Past `SELECT <columns> FROM ddos.` the statement reads back the first table, then the join. */
  lemma JoinSqlReadBack(columns: string, table1: string, tail: string)
    requires tail != [] && tail[0] == ' '
    ensures var prefix := "SELECT " + columns + " FROM ";
            && StartsWith(JoinSql(columns, table1, tail), prefix + SCHEMA + ".")
            && ReadQuoted(JoinSql(columns, table1, tail)[|prefix| + 5..], '"') == Some((table1, tail))
  {
    var prefix := "SELECT " + columns + " FROM ";
    TableSqlStarts(prefix, table1, tail);
    TableSqlReadBack(prefix, table1, tail);
  }

  /** The join part opens with a blank, so it cannot be read as part of the quoted first table. */
  lemma JoinTailOpens(keyword: string, table2: string, field1: string, field2: string)
    ensures var t := JoinTail(keyword, table2, field1, field2); t != [] && t[0] == ' '
  {
    var t := JoinTail(keyword, table2, field1, field2);
    var rest := keyword + " " + TableSql(table2) + " t2 ON " + ("t1." + QuoteIdent(field1) + " = t2." + QuoteIdent(field2));
    assert t == " t1 " + rest;
    assert (" t1 " + rest)[0] == ' ';
  }

  // ---------------------------------------------------------------------------
  // `execute_null_func`

  const NULL_COALESCE := "COALESCE (Заменить NULL на...)"
  const NULL_NULLIF := "NULLIF (Вернуть NULL если равно...)"

  const FIRST_ARGUMENT_REQUIRED := "Укажите первый аргумент"
  const NULLIF_NEEDS_TWO := "Для NULLIF нужны 2 аргумента"

  /** The state of the NULL-functions group. */
  datatype NullForm = NullForm(functionText: string, arg1Text: string, arg2Text: string, table: Option<string>)

  /** The COALESCE/NULLIF expression, or the warning that stops it. */
  function NullExpression(functionText: string, a1: string, a2: string): (r: Result<string, string>)
    ensures a1 == "" ==> r == Err(FIRST_ARGUMENT_REQUIRED)
    ensures a1 != "" && Contains(functionText, "COALESCE") ==>
              r == Ok("COALESCE(" + (a1 + (if a2 != "" then ", " + a2 else "")) + ")")
    ensures a1 != "" && !Contains(functionText, "COALESCE") ==>
              r == (if a2 == "" then Err(NULLIF_NEEDS_TWO) else Ok("NULLIF(" + a1 + ", " + a2 + ")"))
  {
    if a1 == "" then Err(FIRST_ARGUMENT_REQUIRED)
    else if Contains(functionText, "COALESCE") then
      var args := a1 + (if a2 != "" then ", " + a2 else "");
      Ok("COALESCE(" + args + ")")
    else if a2 == "" then Err(NULLIF_NEEDS_TWO)
    else Ok("NULLIF(" + a1 + ", " + a2 + ")")
  }

  /** `execute_null_func`: the warnings come first; a missing table then makes `quote_ident` raise. */
  function NullAction(f: NullForm): (r: Action)
    ensures var e := NullExpression(f.functionText, Strip(f.arg1Text), Strip(f.arg2Text));
            && (r.Warn? <==> e.Err?)
            && (r.Warn? ==> r.message == e.error)
            && (r.Raise? <==> e.Ok? && f.table.None?)
            && (r.Execute? ==> r.sql == NullSql(e.value, f.table.value))
  {
    match NullExpression(f.functionText, Strip(f.arg1Text), Strip(f.arg2Text))
    case Err(message) => Warn(message)
    case Ok(e) =>
      if f.table.None? then Raise
      else Execute(NullSql(e, f.table.value))
  }

  /** `SELECT *, e AS func_result FROM ddos."t"` */
  function NullSql(e: string, table: string): string {
    "SELECT *, " + e + " AS func_result FROM " + TableSql(table)
  }

  lemma NullCoalesceHasCoalesce()
    ensures Contains(NULL_COALESCE, "COALESCE")
  {
    ContainsAt(NULL_COALESCE, "COALESCE", 0);
  }

  lemma NullNullifLacksCoalesce()
    ensures !Contains(NULL_NULLIF, "COALESCE")
  {
    AbsentHead(NULL_NULLIF, "COALESCE");
  }

  /**
    With both labels of the combo: COALESCE takes one argument or two, NULLIF
    insists on two; neither runs without the first.
   */
  lemma NullArguments(a1: string, a2: string)
    ensures NullExpression(NULL_COALESCE, a1, a2).Ok? <==> a1 != ""
    ensures NullExpression(NULL_NULLIF, a1, a2).Ok? <==> a1 != "" && a2 != ""
  {
    NullCoalesceHasCoalesce();
    NullNullifLacksCoalesce();
  }

  /** The call an accepted COALESCE/NULLIF expression opens with: COALESCE iff the label names it. */
  function NullCallOpen(functionText: string): string {
    if Contains(functionText, "COALESCE") then "COALESCE(" else "NULLIF("
  }

  /**
    An accepted expression reads back as a call of the function the label names, with
    the first argument right after the parenthesis and the second, when given, last.
   */
  lemma NullCallArguments(functionText: string, a1: string, a2: string)
    requires NullExpression(functionText, a1, a2).Ok?
    ensures var e, open := NullExpression(functionText, a1, a2).value, NullCallOpen(functionText);
            && e[..|open|] == open
            && e[|open|..|open| + |a1|] == a1
            && e[|open| + |a1|..] == (if a2 != "" then ", " + a2 else "") + ")"
  {
    var e, open := NullExpression(functionText, a1, a2).value, NullCallOpen(functionText);
    var more := if a2 != "" then ", " + a2 else "";
    if Contains(functionText, "COALESCE") {
      assert e == open + (a1 + more) + ")";
      OneMoreArgument(open, a1, more, ")");
    } else {
      assert e == open + a1 + ", " + a2 + ")";
      TwoArguments(open, a1, ", ", a2, ")");
    }
    MiddleOf(open, a1, more + ")");
    DropPrefix(open + a1, more + ")");
  }

  lemma OneMoreArgument(open: string, a: string, more: string, close: string)
    ensures open + (a + more) + close == open + a + (more + close)
  {
  }

  lemma TwoArguments(open: string, a: string, sep: string, b: string, close: string)
    ensures open + a + sep + b + close == open + a + (sep + b + close)
  {
  }

  /**
    A COALESCE/NULLIF statement selects every column and then the accepted
    expression; the chosen table reads back at its end.
   */
  lemma NullQueryReadBack(f: NullForm)
    requires NullAction(f).Execute?
    ensures var e := NullExpression(f.functionText, Strip(f.arg1Text), Strip(f.arg2Text)).value;
            var s, prefix := NullAction(f).sql, "SELECT *, " + e + " AS func_result FROM ";
            && s[..10] == "SELECT *, "
            && s[10..10 + |e|] == e
            && s[|prefix|..|prefix| + 5] == SCHEMA + "."
            && ReadQuoted(s[|prefix| + 5..], '"') == Some((f.table.value, ""))
  {
    var e := NullExpression(f.functionText, Strip(f.arg1Text), Strip(f.arg2Text)).value;
    NullSqlReadBack(e, f.table.value);
  }

  /** The parts of a COALESCE/NULLIF statement, for any expression and table. */
  lemma NullSqlReadBack(e: string, table: string)
    ensures var s, prefix := NullSql(e, table), "SELECT *, " + e + " AS func_result FROM ";
            && s[..10] == "SELECT *, "
            && s[10..10 + |e|] == e
            && s[|prefix|..|prefix| + 5] == SCHEMA + "."
            && ReadQuoted(s[|prefix| + 5..], '"') == Some((table, ""))
  {
    var head, middle := "SELECT *, ", " AS func_result FROM ";
    var s, prefix := NullSql(e, table), head + e + middle;
    ConcatAssoc(head + e, middle, TableSql(table));
    MiddleOf(head, e, middle + TableSql(table));
    AppendEmpty(s);
    TableSqlReadBack(prefix, table, "");
  }

  // ---------------------------------------------------------------------------
  // `execute_case`

  /** One row of the CASE grid: the item in each of its two cells, if the cell has one. */
  datatype CaseRow = CaseRow(whenItem: Option<string>, thenItem: Option<string>)

  /** The state of the CASE group: the table combo, the grid, the ELSE field. */
  datatype CaseForm = CaseForm(table: Option<string>, rows: seq<CaseRow>, elseText: string)

  const CONDITION_REQUIRED := "Заполните хотя бы одно условие"

  /** A row takes part when both its cells hold an item and its WHEN text is not blank. */
  predicate Contributes(row: CaseRow) {
    row.whenItem.Some? && row.thenItem.Some? && Strip(row.whenItem.value) != ""
  }

  /** `WHEN w THEN t`, both texts stripped and inserted as they are. */
  function CaseArm(row: CaseRow): string
    requires Contributes(row)
  {
    "WHEN " + Strip(row.whenItem.value) + " THEN " + Strip(row.thenItem.value)
  }

  /** The arms the grid's rows contribute, in row order. */
  function CaseArms(rows: seq<CaseRow>): (r: seq<string>)
    ensures |r| <= |rows|
    decreases |rows|
  {
    if rows == [] then []
    else
      var last := rows[|rows| - 1];
      CaseArms(rows[..|rows| - 1]) + (if Contributes(last) then [CaseArm(last)] else [])
  }

  /** ` ELSE e` for a non-blank ELSE text, nothing otherwise. */
  function ElsePart(elseText: string): (r: string)
    ensures r == "" <==> Strip(elseText) == ""
    ensures r != "" ==> r == " ELSE " + Strip(elseText)
  {
    var e := Strip(elseText);
    if e != "" then " ELSE " + e else ""
  }

  /** `CASE arm1 arm2 … [ELSE e] END` */
  function CaseSql(arms: seq<string>, elseText: string): string {
    "CASE " + Join(arms, " ") + ElsePart(elseText) + " END"
  }

  /** `SELECT *, CASE … END AS case_result FROM ddos."t"` */
  function CaseQuery(arms: seq<string>, elseText: string, table: string): string {
    "SELECT *, " + CaseSql(arms, elseText) + " AS case_result FROM " + TableSql(table)
  }

  /** `execute_case`: at least one arm is needed; a missing table then makes `quote_ident` raise. */
  function CaseAction(f: CaseForm): (r: Action)
    ensures r.Warn? <==> CaseArms(f.rows) == []
    ensures r.Warn? ==> r.message == CONDITION_REQUIRED
    ensures r.Raise? <==> CaseArms(f.rows) != [] && f.table.None?
    ensures r.Execute? ==> r.sql == CaseQuery(CaseArms(f.rows), f.elseText, f.table.value)
  {
    var arms := CaseArms(f.rows);
    if arms == [] then Warn(CONDITION_REQUIRED)
    else if f.table.None? then Raise
    else Execute(CaseQuery(arms, f.elseText, f.table.value))
  }

  /** A CASE statement starts with the CASE expression and names the chosen table at its end. */
  lemma CaseQueryReadBack(arms: seq<string>, elseText: string, table: string)
    ensures var s := CaseQuery(arms, elseText, table);
            var prefix := "SELECT *, " + CaseSql(arms, elseText) + " AS case_result FROM ";
            ReadQuoted(s[|prefix| + 5..], '"') == Some((table, ""))
  {
    var s := CaseQuery(arms, elseText, table);
    var prefix := "SELECT *, " + CaseSql(arms, elseText) + " AS case_result FROM ";
    assert s == prefix + TableSql(table) + "";
    TableSqlReadBack(prefix, table, "");
  }

  /** The CASE query, built as the source does: a loop over the grid's rows collecting arms. */
  method ExecuteCase(f: CaseForm) returns (action: Action)
    ensures action == CaseAction(f)
  {
    var cases: seq<string> := [];
    var i := 0;
    while i < |f.rows|
      invariant 0 <= i <= |f.rows|
      invariant cases == CaseArms(f.rows[..i])
    {
      var row := f.rows[i];
      CaseArmsStep(f.rows, i);
      if row.whenItem.Some? && row.thenItem.Some? && Strip(row.whenItem.value) != "" {
        var whenExpr := Strip(row.whenItem.value);
        var thenExpr := Strip(row.thenItem.value);
        cases := cases + ["WHEN " + whenExpr + " THEN " + thenExpr];
      }
      i := i + 1;
    }
    assert f.rows[..i] == f.rows;
    if cases == [] {
      return Warn(CONDITION_REQUIRED);
    }
    var elsePart := ElsePart(f.elseText);
    var caseSql := "CASE " + Join(cases, " ") + elsePart + " END";
    assert caseSql == CaseSql(cases, f.elseText);
    if f.table.None? {
      return Raise;
    }
    action := Execute("SELECT *, " + caseSql + " AS case_result FROM " + TableSql(f.table.value));
  }

  /** The arms of a non-empty grid: those of all rows but the last, then the last row's. */
  lemma CaseArmsUnfold(rows: seq<CaseRow>)
    requires rows != []
    ensures CaseArms(rows) == CaseArms(rows[..|rows| - 1])
      + (if Contributes(rows[|rows| - 1]) then [CaseArm(rows[|rows| - 1])] else [])
  {
  }

  /** One more row adds its arm, if it contributes one, after the arms of the rows above it. */
  lemma CaseArmsStep(rows: seq<CaseRow>, i: nat)
    requires i < |rows|
    ensures CaseArms(rows[..i + 1]) == CaseArms(rows[..i]) + (if Contributes(rows[i]) then [CaseArm(rows[i])] else [])
  {
    assert rows[..i + 1][..i] == rows[..i];
    assert rows[..i + 1][i] == rows[i];
  }

  /** Every arm comes from a contributing row: it is that row's `WHEN … THEN …`. */
  lemma {:induction false} CaseArmsFromRows(rows: seq<CaseRow>, i: nat)
    requires i < |CaseArms(rows)|
    ensures exists k :: 0 <= k < |rows| && Contributes(rows[k]) && CaseArms(rows)[i] == CaseArm(rows[k])
    decreases |rows|
  {
    var init, last := rows[..|rows| - 1], rows[|rows| - 1];
    var before := CaseArms(init);
    CaseArmsUnfold(rows);
    if i < |before| {
      CaseArmsFromRows(init, i);
      var k :| 0 <= k < |init| && Contributes(init[k]) && before[i] == CaseArm(init[k]);
      assert rows[k] == init[k];
      assert CaseArms(rows)[i] == before[i];
      assert 0 <= k < |rows| && Contributes(rows[k]) && CaseArms(rows)[i] == CaseArm(rows[k]);
    } else {
      assert Contributes(last) && CaseArms(rows)[i] == CaseArm(last);
      assert 0 <= |rows| - 1 < |rows| && Contributes(rows[|rows| - 1]) && CaseArms(rows)[i] == CaseArm(rows[|rows| - 1]);
    }
  }

  /** Every contributing row gives its arm. */
  lemma {:induction false} CaseArmOfRow(rows: seq<CaseRow>, k: nat)
    requires k < |rows| && Contributes(rows[k])
    ensures CaseArm(rows[k]) in CaseArms(rows)
    decreases |rows|
  {
    var init := rows[..|rows| - 1];
    if k < |init| {
      assert init[k] == rows[k];
      CaseArmOfRow(init, k);
      CaseArmsPrefix(rows);
    } else {
      CaseArmsLast(rows);
    }
  }

  lemma CaseArmsPrefix(rows: seq<CaseRow>)
    requires rows != []
    ensures forall a :: a in CaseArms(rows[..|rows| - 1]) ==> a in CaseArms(rows)
  {
  }

  lemma CaseArmsLast(rows: seq<CaseRow>)
    requires rows != [] && Contributes(rows[|rows| - 1])
    ensures CaseArm(rows[|rows| - 1]) in CaseArms(rows)
  {
  }

  /** The arms keep the rows' order: the arms of a grid are those of its top part, then those of the rest. */
  lemma {:induction false} CaseArmsAppend(top: seq<CaseRow>, bottom: seq<CaseRow>)
    ensures CaseArms(top + bottom) == CaseArms(top) + CaseArms(bottom)
    decreases |bottom|
  {
    if bottom == [] {
      assert top + bottom == top;
    } else {
      var init, last := bottom[..|bottom| - 1], bottom[|bottom| - 1];
      CaseArmsAppend(top, init);
      assert (top + bottom)[..|top + bottom| - 1] == top + init;
      assert (top + bottom)[|top + bottom| - 1] == last;
      CaseArmsUnfold(top + bottom);
      CaseArmsUnfold(bottom);
    }
  }

  /** No query comes of a grid none of whose rows contributes. */
  lemma CaseNeedsAnArm(f: CaseForm)
    ensures CaseAction(f).Warn? <==> forall k :: 0 <= k < |f.rows| ==> !Contributes(f.rows[k])
  {
    if CaseArms(f.rows) != [] {
      CaseArmsFromRows(f.rows, 0);
    }
    forall k | 0 <= k < |f.rows| && Contributes(f.rows[k]) ensures CaseArms(f.rows) != [] {
      CaseArmOfRow(f.rows, k);
    }
  }

  // ---------------------------------------------------------------------------
  // `display_results`

  const NO_DATA := "Нет данных"

  /** `str(value)` for a value of a returned row, rendered by the driver; `None` is NULL. */
  function CellText(value: Option<string>): string {
    if value.Some? then value.value else ""
  }

  /** `Столбец i`, the header of column `i - 1` when the driver reports no column names. */
  function NumberedHeader(i: nat): string {
    "Столбец " + NatToString(i + 1)
  }

  /** The column count the result grid gets for non-empty data. */
  function ColumnsShown(data: seq<seq<Option<string>>>, columns: seq<string>): nat
    requires data != []
  {
    if columns != [] then |columns| else |data[0]|
  }

  /** The header labels for non-empty data: the column names, or numbered headers. */
  function HeaderLabels(data: seq<seq<Option<string>>>, columns: seq<string>): (r: seq<string>)
    requires data != []
    ensures |r| == ColumnsShown(data, columns)
    ensures columns != [] ==> r == columns
    ensures columns == [] ==> forall i :: 0 <= i < |r| ==> r[i] == NumberedHeader(i)
  {
    if columns != [] then columns else seq(|data[0]|, i requires 0 <= i => NumberedHeader(i))
  }

  /** Numbered headers name different columns differently. */
  lemma NumberedHeadersDistinct(i: nat, j: nat)
    requires NumberedHeader(i) == NumberedHeader(j)
    ensures i == j
  {
    var p := "Столбец ";
    assert NumberedHeader(i)[|p|..] == NatToString(i + 1);
    assert NumberedHeader(j)[|p|..] == NatToString(j + 1);
  }

  /** The cells of a map that lie in the first `rows` rows and `cols` columns. */
  function Within(cells: map<(int, int), string>, rows: int, cols: int): (r: map<(int, int), string>)
    ensures forall k :: k in r <==> k in cells && 0 <= k.0 < rows && 0 <= k.1 < cols
    ensures forall k :: k in r ==> r[k] == cells[k]
  {
    map k | k in cells && 0 <= k.0 < rows && 0 <= k.1 < cols :: cells[k]
  }

  /** The cells after the first `j` values of `record` are written into row `r`; values past column `cols` are dropped. */
  function WriteRecord(cells: map<(int, int), string>, r: int, record: seq<Option<string>>, cols: int, j: nat): map<(int, int), string>
    requires j <= |record|
  {
    if j == 0 then cells
    else
      var before := WriteRecord(cells, r, record, cols, j - 1);
      if j - 1 < cols then before[(r, j - 1) := CellText(record[j - 1])] else before
  }

  /** The cells after the first `k` records of `data` are written, row after row. */
  function WriteRecords(cells: map<(int, int), string>, data: seq<seq<Option<string>>>, cols: int, k: nat): map<(int, int), string>
    requires k <= |data|
  {
    if k == 0 then cells
    else WriteRecord(WriteRecords(cells, data, cols, k - 1), k - 1, data[k - 1], cols, |data[k - 1]|)
  }

  /** Writing a record sets its cells within the column count and keeps every other cell. */
  lemma {:induction false} WriteRecordCell(cells: map<(int, int), string>, r: int, record: seq<Option<string>>, cols: int, j: nat, key: (int, int))
    requires j <= |record|
    ensures var w := WriteRecord(cells, r, record, cols, j);
            var written := key.0 == r && 0 <= key.1 < j && key.1 < cols;
            && (key in w <==> written || key in cells)
            && (written ==> w[key] == CellText(record[key.1]))
            && (!written && key in cells ==> w[key] == cells[key])
    decreases j
  {
    if j > 0 {
      WriteRecordCell(cells, r, record, cols, j - 1, key);
    }
  }

  /** After the records are written, a cell holds its value when its record reaches it, and its old text otherwise. */
  lemma {:induction false} WriteRecordsCell(cells: map<(int, int), string>, data: seq<seq<Option<string>>>, cols: int, k: nat, key: (int, int))
    requires k <= |data|
    ensures var w := WriteRecords(cells, data, cols, k);
            var written := 0 <= key.0 < k && 0 <= key.1 < |data[key.0]| && key.1 < cols;
            && (key in w <==> written || key in cells)
            && (written ==> w[key] == CellText(data[key.0][key.1]))
            && (!written && key in cells ==> w[key] == cells[key])
    decreases k
  {
    if k > 0 {
      WriteRecordsCell(cells, data, cols, k - 1, key);
      WriteRecordCell(WriteRecords(cells, data, cols, k - 1), k - 1, data[k - 1], cols, |data[k - 1]|, key);
    }
  }

  /** Qt's default headers of `count` columns added after the first `from`: their 1-based numbers. */
  function DefaultHeaders(from: nat, count: nat): (r: seq<string>)
    ensures |r| == count
  {
    seq(count, i requires 0 <= i => NatToString(from + i + 1))
  }

  /** The QTableWidget the results are shown in: header labels, row and column counts, and its cells' texts. */
  class ResultGrid {
    var headers: seq<string>
    var rowCount: nat
    var columnCount: nat
    var cells: map<(int, int), string>

    /** One header per column; every cell inside the grid. */
    predicate Valid()
      reads this
    {
      && |headers| == columnCount
      && forall k :: k in cells ==> 0 <= k.0 < rowCount && 0 <= k.1 < columnCount
    }

    constructor()
      ensures Valid()
      ensures headers == [] && rowCount == 0 && columnCount == 0 && cells == map[]
    {
      headers := [];
      rowCount := 0;
      columnCount := 0;
      cells := map[];
    }

    /** `setColumnCount`: cells past the new count go; new columns get Qt's numeric default headers. */
    method SetColumnCount(n: nat)
      requires Valid()
      modifies this
      ensures Valid()
      ensures columnCount == n && rowCount == old(rowCount)
      ensures headers == if n <= |old(headers)| then old(headers)[..n] else old(headers) + DefaultHeaders(|old(headers)|, n - |old(headers)|)
      ensures cells == Within(old(cells), rowCount, n)
    {
      if n <= |headers| {
        headers := headers[..n];
      } else {
        headers := headers + DefaultHeaders(|headers|, n - |headers|);
      }
      columnCount := n;
      cells := Within(cells, rowCount, n);
    }

    /** `setRowCount`: rows past the new count go. */
    method SetRowCount(n: nat)
      requires Valid()
      modifies this
      ensures Valid()
      ensures rowCount == n && columnCount == old(columnCount) && headers == old(headers)
      ensures cells == Within(old(cells), n, columnCount)
    {
      rowCount := n;
      cells := Within(cells, n, columnCount);
    }

    /** `setHorizontalHeaderLabels`: labels go onto the existing columns, as many as there are of both. */
    method SetHeaderLabels(labels: seq<string>)
      requires Valid()
      modifies this
      ensures Valid()
      ensures rowCount == old(rowCount) && columnCount == old(columnCount) && cells == old(cells)
      ensures |labels| >= columnCount ==> headers == labels[..columnCount]
      ensures |labels| < columnCount ==> headers == labels + old(headers)[|labels|..]
    {
      if |labels| >= columnCount {
        headers := labels[..columnCount];
      } else {
        headers := labels + headers[|labels|..];
      }
    }

    /** `setItem`: a cell inside the grid takes the text; a position outside it is ignored. */
    method SetItem(r: nat, c: nat, text: string)
      requires Valid()
      modifies this
      ensures Valid()
      ensures rowCount == old(rowCount) && columnCount == old(columnCount) && headers == old(headers)
      ensures cells == if r < rowCount && c < columnCount then old(cells)[(r, c) := text] else old(cells)
    {
      if r < rowCount && c < columnCount {
        cells := cells[(r, c) := text];
      }
    }

    /**
      `display_results`: with no data, one column headed `Нет данных` and no rows;
      otherwise the column names (or numbered headers), one row per record, and each
      record's values written left to right, those past the last column dropped.
     */
    method DisplayResults(data: seq<seq<Option<string>>>, columns: seq<string>)
      requires Valid()
      modifies this
      ensures Valid()
      ensures data == [] ==> rowCount == 0 && columnCount == 1 && headers == [NO_DATA] && cells == map[]
      ensures data != [] ==>
                && columnCount == ColumnsShown(data, columns)
                && headers == HeaderLabels(data, columns)
                && rowCount == |data|
                && cells == WriteRecords(Within(old(cells), |data|, columnCount), data, columnCount, |data|)
    {
      if data == [] {
        SetRowCount(0);
        SetColumnCount(1);
        assert |[NO_DATA]| == columnCount;
        SetHeaderLabels([NO_DATA]);
        return;
      }
      var n := if columns != [] then |columns| else |data[0]|;
      var labels := if columns != [] then columns else seq(n, i requires 0 <= i => NumberedHeader(i));
      SetColumnCount(n);
      assert |labels| == columnCount;
      SetHeaderLabels(labels);
      SetRowCount(|data|);
      ghost var start := cells;
      assert start == Within(old(cells), |data|, n);
      for row := 0 to |data|
        invariant Valid()
        invariant rowCount == |data| && columnCount == n && headers == labels
        invariant cells == WriteRecords(start, data, n, row)
      {
        WriteRow(row, data[row]);
      }
    }

    /** The inner loop of `display_results`: one record's values into row `row`, left to right. */
    method WriteRow(row: nat, record: seq<Option<string>>)
      requires Valid() && row < rowCount
      modifies this
      ensures Valid()
      ensures rowCount == old(rowCount) && columnCount == old(columnCount) && headers == old(headers)
      ensures cells == WriteRecord(old(cells), row, record, columnCount, |record|)
    {
      for col := 0 to |record|
        invariant Valid()
        invariant rowCount == old(rowCount) && columnCount == old(columnCount) && headers == old(headers)
        invariant cells == WriteRecord(old(cells), row, record, columnCount, col)
      {
        SetItem(row, col, CellText(record[col]));
      }
    }
  }

  /**
    What the grid shows after `display_results` on non-empty data: a cell holds the
    text of its value when its record reaches that column, keeps its old text when the
    record is shorter, and nothing lies outside the new rows and columns.
   */
  lemma DisplayedCell(old_cells: map<(int, int), string>, data: seq<seq<Option<string>>>, columns: seq<string>, key: (int, int))
    requires data != []
    ensures var n := ColumnsShown(data, columns);
            var shown := WriteRecords(Within(old_cells, |data|, n), data, n, |data|);
            var inside := 0 <= key.0 < |data| && 0 <= key.1 < n;
            var given := inside && key.1 < |data[key.0]|;
            && (key in shown ==> inside)
            && (given ==> key in shown && shown[key] == CellText(data[key.0][key.1]))
            && (inside && !given ==> (key in shown <==> key in old_cells) && (key in shown ==> shown[key] == old_cells[key]))
  {
    var n := ColumnsShown(data, columns);
    WriteRecordsCell(Within(old_cells, |data|, n), data, n, |data|, key);
  }
}
