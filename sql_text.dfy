/**
  The identifier and literal encoders shared by the dialogs (advanced_view_dialog.py
  `quote_ident`; gui.py `ViewDialog.quote_ident`, `qualify_column`, `format_literal`),
  the ENUM label list of db.py and types_dialog.py, and readers that take the encoded
  text apart again, so that what each encoder promises can be stated as a round trip.
 */
module SqlText {
  import opened Wrappers
  import opened Text

  /** What a dialog does when its button is pressed: hand a statement to the database, warn, or raise. */
  datatype Action = Execute(sql: string) | Warn(message: string) | Raise

  /** The schema every dialog works in. */
  const SCHEMA := "ddos"

  /** The table the dialogs fall back to when none is selected. */
  const DEFAULT_TABLE := "experiments"

  /** Python truthiness of a combo box's `currentData()`: present and non-empty. */
  predicate Truthy(o: Option<string>) {
    o.Some? && o.value != ""
  }

  /** `currentData() or default` */
  function OrDefault(o: Option<string>, default: string): (r: string)
    ensures Truthy(o) ==> r == o.value
    ensures !Truthy(o) ==> r == default
  {
    if Truthy(o) then o.value else default
  }

  /** A SQL delimited identifier (ISO/IEC 9075-2, section 5.2): `"` around the name, every `"` inside doubled. */
  function QuoteIdent(name: string): (r: string)
    ensures |r| >= 2 && r[0] == '"' && r[|r| - 1] == '"'
  {
    "\"" + Double(name, '"') + "\""
  }

  /** A SQL character string literal (ISO/IEC 9075-2, section 5.3): `'` around the text, every `'` inside doubled. */
  function QuoteString(text: string): (r: string)
    ensures |r| >= 2 && r[0] == '\'' && r[|r| - 1] == '\''
  {
    "'" + Double(text, '\'') + "'"
  }

  /**
    Reads the body of a token delimited by `q`, starting just after the opening `q`:
    a doubled `q` stands for one `q`, a single `q` ends the token. Gives the body and
    what follows the closing `q`.
   */
  function ReadQuotedBody(s: string, q: char): Option<(string, string)>
    decreases |s|
  {
    if s == [] then None
    else if s[0] != q then
      match ReadQuotedBody(s[1..], q)
      case None => None
      case Some((body, rest)) => Some(([s[0]] + body, rest))
    else if |s| >= 2 && s[1] == q then
      match ReadQuotedBody(s[2..], q)
      case None => None
      case Some((body, rest)) => Some(([q] + body, rest))
    else Some(("", s[1..]))
  }

  /** Reads one token delimited by `q` from the front of `s`. */
  function ReadQuoted(s: string, q: char): Option<(string, string)> {
    if s != [] && s[0] == q then ReadQuotedBody(s[1..], q) else None
  }

  /** The body of a doubled text followed by a closing `q` reads back as the text. */
  lemma {:induction false} ReadDoubledBody(x: string, q: char, rest: string)
    requires rest == [] || rest[0] != q
    ensures ReadQuotedBody(Double(x, q) + [q] + rest, q) == Some((x, rest))
    decreases |x|
  {
    var s := Double(x, q) + [q] + rest;
    if x == [] {
      assert s == [q] + rest;
      assert s[1..] == rest;
    } else {
      ReadDoubledBody(x[1..], q, rest);
      var t := Double(x[1..], q) + [q] + rest;
      if x[0] == q {
        assert s == [q, q] + t;
        assert s[2..] == t;
      } else {
        assert s == [x[0]] + t;
        assert s[1..] == t;
      }
      assert [x[0]] + x[1..] == x;
    }
  }

  /** A quoted identifier followed by anything that does not start with `"` reads back as the name and that rest. */
  lemma QuoteIdentReadBack(name: string, rest: string)
    requires rest == [] || rest[0] != '"'
    ensures ReadQuoted(QuoteIdent(name) + rest, '"') == Some((name, rest))
  {
    var s := QuoteIdent(name) + rest;
    assert s[1..] == Double(name, '"') + ['"'] + rest;
    ReadDoubledBody(name, '"', rest);
  }

  /** Doubling `"` is an escape: different names give different identifiers. */
  lemma QuoteIdentInjective(a: string, b: string)
    requires QuoteIdent(a) == QuoteIdent(b)
    ensures a == b
  {
    QuoteIdentReadBack(a, "");
    QuoteIdentReadBack(b, "");
    assert QuoteIdent(a) + "" == QuoteIdent(a);
    assert QuoteIdent(b) + "" == QuoteIdent(b);
  }

  /** A string literal followed by anything that does not start with `'` reads back as the text and that rest. */
  lemma QuoteStringReadBack(text: string, rest: string)
    requires rest == [] || rest[0] != '\''
    ensures ReadQuoted(QuoteString(text) + rest, '\'') == Some((text, rest))
  {
    var s := QuoteString(text) + rest;
    assert s[1..] == Double(text, '\'') + ['\''] + rest;
    ReadDoubledBody(text, '\'', rest);
  }

  /** `ddos."t"`: a table of the schema. */
  function TableSql(table: string): string {
    SCHEMA + "." + QuoteIdent(table)
  }

  /**
    The table a statement names after a known prefix reads back out of it: past the
    prefix and `ddos.` comes the quoted name, followed by the rest of the statement.
   */
  lemma TableSqlReadBack(prefix: string, table: string, rest: string)
    requires rest == [] || rest[0] != '"'
    ensures var s := prefix + TableSql(table) + rest;
            s[|prefix|..|prefix| + 5] == SCHEMA + "."
            && ReadQuoted(s[|prefix| + 5..], '"') == Some((table, rest))
  {
    var s := prefix + TableSql(table) + rest;
    assert s[|prefix| + 5..] == QuoteIdent(table) + rest;
    assert s[|prefix|..|prefix| + 5] == SCHEMA + ".";
    QuoteIdentReadBack(table, rest);
  }

  /** A statement with `ddos."t"` after a prefix starts with that prefix and `ddos.`. */
  lemma TableSqlStarts(prefix: string, table: string, rest: string)
    ensures StartsWith(prefix + TableSql(table) + rest, prefix + SCHEMA + ".")
  {
    var s := prefix + TableSql(table) + rest;
    assert s == (prefix + (SCHEMA + ".")) + (QuoteIdent(table) + rest);
    PrefixStarts(prefix + (SCHEMA + "."), QuoteIdent(table) + rest);
  }

  /** `ddos."t"."c"`: a column qualified by its schema and table (gui.py `qualify_column`). */
  function QualifyColumn(table: string, column: string): (r: string)
    ensures StartsWith(r, SCHEMA + ".\"")
  {
    SCHEMA + "." + QuoteIdent(table) + "." + QuoteIdent(column)
  }

  lemma QualifyColumnParts(table: string, column: string)
    ensures QualifyColumn(table, column) == (SCHEMA + ".") + (QuoteIdent(table) + ("." + QuoteIdent(column)))
  {
    var a, b, c := SCHEMA + ".", QuoteIdent(table), QuoteIdent(column);
    ConcatAssoc(a, b, ".");
    ConcatAssoc(a, b + ".", c);
    ConcatAssoc(b, ".", c);
  }

  /** A qualified column names exactly one table and one column. */
  lemma QualifyColumnInjective(t1: string, c1: string, t2: string, c2: string)
    requires QualifyColumn(t1, c1) == QualifyColumn(t2, c2)
    ensures t1 == t2 && c1 == c2
  {
    var p := SCHEMA + ".";
    var r1, r2 := "." + QuoteIdent(c1), "." + QuoteIdent(c2);
    QualifyColumnParts(t1, c1);
    QualifyColumnParts(t2, c2);
    DropPrefix(p, QuoteIdent(t1) + r1);
    DropPrefix(p, QuoteIdent(t2) + r2);
    QuoteIdentReadBack(t1, r1);
    QuoteIdentReadBack(t2, r2);
    DropPrefix(".", QuoteIdent(c1));
    DropPrefix(".", QuoteIdent(c2));
    QuoteIdentInjective(c1, c2);
  }

  /** The text without one leading `+` or `-`. */
  function Unsigned(v: string): string {
    if v != [] && (v[0] == '+' || v[0] == '-') then v[1..] else v
  }

  /** What Python's `int(v)` accepts, in a simplified grammar: an optional sign and ASCII digits. */
  predicate IsIntLiteral(v: string) {
    IsDigits(Unsigned(v))
  }

  /**
    What Python's `float(v)` accepts, in a simplified grammar: an optional sign, then
    ASCII digits with at most one `.` among them, and at least one digit.
   */
  predicate IsFloatLiteral(v: string) {
    var u := Unsigned(v);
    var k := IndexOf(u, '.');
    && AllDigits(u[..k])
    && (k == |u| || AllDigits(u[k + 1..]))
    && |u| > (if k < |u| then 1 else 0)
  }

  /** The test of gui.py `format_literal`: with a `.` it must parse as a float, without one as an int. */
  predicate IsNumberForLiteral(v: string) {
    if Contains(v, ".") then IsFloatLiteral(v) else IsIntLiteral(v)
  }

  /** The first character of a text `format_literal` leaves bare is never a quote. */
  lemma NumberNotQuoted(v: string)
    requires IsNumberForLiteral(v)
    ensures v != [] && v[0] != '\''
  {
  }

  /** gui.py `format_literal`: `''` for blank input, a number as it is, any other text as a string literal. */
  function FormatLiteral(value: string): string {
    var v := Strip(value);
    if v == [] then "''"
    else if IsNumberForLiteral(v) then v
    else QuoteString(v)
  }

  /** The text a literal stands for: the body of a quoted literal, or a bare token as it is. */
  function LiteralText(r: string): Option<string> {
    if r != [] && r[0] == '\'' then
      match ReadQuoted(r, '\'')
      case Some((text, rest)) => if rest == [] then Some(text) else None
      case None => None
    else Some(r)
  }

  /** `format_literal` loses nothing but the surrounding white space: the literal reads back as the stripped input. */
  lemma FormatLiteralReadBack(value: string)
    ensures LiteralText(FormatLiteral(value)) == Some(Strip(value))
  {
    var v := Strip(value);
    if v == [] {
      QuoteStringReadBack("", "");
      assert QuoteString("") == "''";
    } else if IsNumberForLiteral(v) {
      NumberNotQuoted(v);
    } else {
      QuoteStringReadBack(v, "");
      assert QuoteString(v) + "" == QuoteString(v);
    }
  }

  /** Inputs with the same literal had the same stripped text. */
  lemma FormatLiteralInjective(a: string, b: string)
    requires FormatLiteral(a) == FormatLiteral(b)
    ensures Strip(a) == Strip(b)
  {
    FormatLiteralReadBack(a);
    FormatLiteralReadBack(b);
  }

  /** `format_literal` returns the stripped input unchanged exactly when it is a number by its test. */
  lemma FormatLiteralBareIffNumber(value: string)
    ensures FormatLiteral(value) == Strip(value) <==> (Strip(value) != [] && IsNumberForLiteral(Strip(value)))
  {
  }

  /** `('a', 'b', …)`: the label list of `CREATE TYPE … AS ENUM` as db.py and types_dialog.py write it, without escaping. */
  function EnumLabelList(labels: seq<string>): (r: string)
    ensures StartsWith(r, "('") && EndsWith(r, "')")
  {
    "('" + Join(labels, "', '") + "')"
  }

  /** For labels free of `'`, the list can be cut back into the labels. */
  lemma EnumLabelListReadBack(labels: seq<string>)
    requires |labels| > 0
    requires forall j, i :: 0 <= j < |labels| && 0 <= i < |labels[j]| ==> labels[j][i] != '\''
    ensures var r := EnumLabelList(labels); Unjoin(r[2..|r| - 2], "', '") == labels
  {
    var r := EnumLabelList(labels);
    assert r[2..|r| - 2] == Join(labels, "', '");
    UnjoinJoin(labels, "', '");
  }
}
