/**
  The composite-value encoder of gui.py `InputDialog.save`: the sub-fields of a
  composite column become one PostgreSQL composite literal `(f1,f2,…)`
  (PostgreSQL documentation, section 8.16.6). A reader modelled on PostgreSQL's
  record input routine states what the database makes of the literal.
 */
module Composite {
  import opened Wrappers
  import opened Text

  /** The characters that make the encoder put a sub-field in double quotes. */
  predicate IsRecordSpecial(c: char) {
    c == ',' || c == '(' || c == ')' || c == '"' || c == '\\' || c == ' '
  }

  /** A sub-field that the encoder quotes. */
  predicate NeedsQuotes(s: string) {
    exists i :: 0 <= i < |s| && IsRecordSpecial(s[i])
  }

  /** The sub-field encoding as the source writes it: quoted with `"` doubled, backslashes left alone. */
  function EncodeFieldAsWritten(s: string): (r: string)
    ensures NeedsQuotes(s) <==> (r != [] && r[0] == '"')
  {
    if NeedsQuotes(s) then "\"" + Double(s, '"') + "\"" else s
  }

  /** Doubles every `"` and every `\`, as PostgreSQL's own record output does inside quotes. */
  function EscapeField(s: string): (r: string)
    decreases |s|
  {
    if s == [] then []
    else (if s[0] == '"' || s[0] == '\\' then [s[0], s[0]] else [s[0]]) + EscapeField(s[1..])
  }

  /** The corrected sub-field encoding: the same quoting test, with backslashes doubled too. */
  function EncodeField(s: string): (r: string)
    ensures NeedsQuotes(s) <==> (r != [] && r[0] == '"')
  {
    if NeedsQuotes(s) then "\"" + EscapeField(s) + "\"" else s
  }

  /** A text without a backslash. */
  predicate NoBackslash(s: string) {
    forall i :: 0 <= i < |s| ==> s[i] != '\\'
  }

  /** Without a backslash, the two escapes agree. */
  lemma {:induction false} EscapeWithoutBackslash(s: string)
    requires NoBackslash(s)
    ensures EscapeField(s) == Double(s, '"')
    decreases |s|
  {
    if s != [] {
      EscapeWithoutBackslash(s[1..]);
    }
  }

  /** The source's encoding differs from the corrected one only on sub-fields with a backslash. */
  lemma AsWrittenAgreesWithoutBackslash(s: string)
    requires NoBackslash(s)
    ensures EncodeFieldAsWritten(s) == EncodeField(s)
  {
    EscapeWithoutBackslash(s);
  }

  /** The sub-fields after stripping. */
  function StrippedFields(texts: seq<string>): (r: seq<string>)
    ensures |r| == |texts|
  {
    seq(|texts|, i requires 0 <= i < |texts| => Strip(texts[i]))
  }

  /** Each sub-field encoded (corrected encoding). */
  function EncodeAll(vals: seq<string>): (r: seq<string>)
    ensures |r| == |vals|
  {
    seq(|vals|, i requires 0 <= i < |vals| => EncodeField(vals[i]))
  }

  /** Each sub-field encoded as the source does. */
  function EncodeAllAsWritten(vals: seq<string>): (r: seq<string>)
    ensures |r| == |vals|
  {
    seq(|vals|, i requires 0 <= i < |vals| => EncodeFieldAsWritten(vals[i]))
  }

  /** Every sub-field is blank after stripping. */
  predicate AllBlank(texts: seq<string>) {
    forall i :: 0 <= i < |texts| ==> Strip(texts[i]) == ""
  }

  /** The first `n` stripped sub-fields, encoded as the source does one after another. */
  function EncodedPrefix(vals: seq<string>, n: nat): (r: seq<string>)
    requires n <= |vals|
    ensures |r| == n
  {
    if n == 0 then [] else EncodedPrefix(vals, n - 1) + [EncodeFieldAsWritten(vals[n - 1])]
  }

  /** Whether the first `n` stripped sub-fields are all empty. */
  predicate BlankPrefix(vals: seq<string>, n: nat)
    requires n <= |vals|
  {
    n == 0 || (BlankPrefix(vals, n - 1) && vals[n - 1] == "")
  }

  /** Encoding the sub-fields one after another encodes them all. */
  lemma {:induction false} EncodedPrefixAll(vals: seq<string>, n: nat)
    requires n <= |vals|
    ensures EncodedPrefix(vals, n) == EncodeAllAsWritten(vals)[..n]
  {
    if n > 0 {
      EncodedPrefixAll(vals, n - 1);
      PrefixSnoc(EncodeAllAsWritten(vals), n - 1);
    }
  }

  /** The running blank test agrees with the quantified one. */
  lemma {:induction false} BlankPrefixAll(vals: seq<string>, n: nat)
    requires n <= |vals|
    ensures BlankPrefix(vals, n) <==> forall j :: 0 <= j < n ==> vals[j] == ""
  {
    if n > 0 {
      BlankPrefixAll(vals, n - 1);
    }
  }

  /** All sub-fields are blank exactly when every stripped one is empty. */
  lemma AllBlankStripped(texts: seq<string>)
    ensures AllBlank(texts) <==> forall j :: 0 <= j < |texts| ==> StrippedFields(texts)[j] == ""
  {
    var stripped := StrippedFields(texts);
    assert forall j :: 0 <= j < |texts| ==> stripped[j] == Strip(texts[j]);
  }

  lemma PrefixSnoc<T>(s: seq<T>, i: nat)
    requires i < |s|
    ensures s[..i + 1] == s[..i] + [s[i]]
  {
  }

  lemma PrefixWhole<T>(s: seq<T>)
    ensures s[..|s|] == s
  {
  }

  /** The value of a composite column: none when every sub-field is blank, else `(f1,f2,…)` (corrected encoding). */
  function CompositeValue(texts: seq<string>): (r: Option<string>)
    ensures r.None? <==> AllBlank(texts)
    ensures r.Some? ==> StartsWith(r.value, "(") && EndsWith(r.value, ")")
  {
    if AllBlank(texts) then None else Some("(" + Join(EncodeAll(StrippedFields(texts)), ",") + ")")
  }

  /** The value of a composite column as the source builds it. */
  function CompositeValueAsWritten(texts: seq<string>): (r: Option<string>)
    ensures r.None? <==> AllBlank(texts)
  {
    if AllBlank(texts) then None else Some("(" + Join(EncodeAllAsWritten(StrippedFields(texts)), ",") + ")")
  }

  /** When no stripped sub-field holds a backslash, the source's literal is the corrected one. */
  lemma CompositeAgreesWithoutBackslash(texts: seq<string>)
    requires forall i :: 0 <= i < |texts| ==> NoBackslash(Strip(texts[i]))
    ensures CompositeValueAsWritten(texts) == CompositeValue(texts)
  {
    var stripped := StrippedFields(texts);
    forall i | 0 <= i < |stripped|
      ensures EncodeAllAsWritten(stripped)[i] == EncodeAll(stripped)[i]
    {
      assert stripped[i] == Strip(texts[i]);
      AsWrittenAgreesWithoutBackslash(stripped[i]);
    }
    assert EncodeAllAsWritten(stripped) == EncodeAll(stripped);
  }

  /** One sub-field of the loop below: strip it, note whether it is blank, quote it when needed (only `"` doubled). */
  method EncodeSubField(text: string) returns (v: string, blank: bool)
    ensures v == EncodeFieldAsWritten(Strip(text))
    ensures blank <==> Strip(text) == ""
  {
    v := Strip(text);
    blank := v == "";
    if NeedsQuotes(v) {
      v := "\"" + Double(v, '"') + "\"";
    }
  }

  /**
    The loop over a composite group's sub-fields: strip each, note whether any is
    non-empty, quote it when needed, collect it; then all-blank gives no value.
    This is the source's loop, so it builds the literal as written.
   */
  method BuildCompositeValue(texts: seq<string>) returns (val: Option<string>)
    ensures val == CompositeValueAsWritten(texts)
  {
    var parts: seq<string> := [];
    var allEmpty := true;
    ghost var stripped := StrippedFields(texts);
    var i := 0;
    while i < |texts|
      invariant 0 <= i <= |texts|
      invariant parts == EncodedPrefix(stripped, i)
      invariant allEmpty <==> BlankPrefix(stripped, i)
    {
      var v, blank := EncodeSubField(texts[i]);
      assert stripped[i] == Strip(texts[i]);
      if !blank {
        allEmpty := false;
      }
      parts := parts + [v];
      i := i + 1;
    }
    EncodedPrefixAll(stripped, |texts|);
    PrefixWhole(EncodeAllAsWritten(stripped));
    BlankPrefixAll(stripped, |texts|);
    AllBlankStripped(texts);
    if allEmpty {
      val := None;
    } else {
      val := Some("(" + Join(parts, ",") + ")");
    }
  }

  // ---------------------------------------------------------------------------
  // Reading a composite literal back, as PostgreSQL's record input does.

  /** The characters that end an unquoted sub-field. */
  predicate IsDelimiter(c: char) {
    c == ',' || c == ')'
  }

  /**
    Scans one non-null sub-field: outside quotes `,` or `)` ends it; `\` takes the
    next character literally; `"` opens or closes a quoted run, in which `""` is one `"`.
    Gives the value and the rest, which starts at the delimiter.
   */
  function ScanField(s: string, inQuotes: bool, acc: string): (r: Option<(string, string)>)
    ensures r.Some? ==> |r.value.1| <= |s| && r.value.1 != [] && IsDelimiter(r.value.1[0])
    ensures r.Some? && (inQuotes || s == [] || !IsDelimiter(s[0])) ==> |r.value.1| < |s|
    decreases |s|
  {
    if !inQuotes && s != [] && IsDelimiter(s[0]) then Some((acc, s))
    else if s == [] then None
    else if s[0] == '\\' then
      if |s| < 2 then None else ScanField(s[2..], inQuotes, acc + [s[1]])
    else if s[0] == '"' then
      if !inQuotes then ScanField(s[1..], true, acc)
      else if |s| >= 2 && s[1] == '"' then ScanField(s[2..], true, acc + ['"'])
      else ScanField(s[1..], false, acc)
    else ScanField(s[1..], inQuotes, acc + [s[0]])
  }

  /** One sub-field: empty input (a delimiter straight away) is NULL. */
  function ReadField(s: string): (r: Option<(Option<string>, string)>)
    ensures r.Some? ==> |r.value.1| <= |s| && r.value.1 != [] && IsDelimiter(r.value.1[0])
  {
    if s != [] && IsDelimiter(s[0]) then Some((None, s))
    else
      match ScanField(s, false, "")
      case None => None
      case Some((v, rest)) => Some((Some(v), rest))
  }

  /** The sub-fields up to the closing `)`, which must end the text. */
  function ReadFields(s: string): Option<seq<Option<string>>>
    decreases |s|
  {
    match ReadField(s)
    case None => None
    case Some((f, rest)) =>
      if rest == ")" then Some([f])
      else if rest[0] == ',' then
        match ReadFields(rest[1..])
        case None => None
        case Some(fs) => Some([f] + fs)
      else None
  }

  /** What the database reads from a composite literal: one optional text per sub-field (none for NULL). */
  function RecordIn(s: string): Option<seq<Option<string>>> {
    if s != [] && s[0] == '(' then ReadFields(s[1..]) else None
  }

  /** A sub-field's value as stored: an empty one is NULL. */
  function FieldValue(v: string): Option<string> {
    if v == "" then None else Some(v)
  }

  /** A text without special characters scans as itself up to the delimiter that follows. */
  lemma {:induction false} ScanPlain(x: string, tail: string, acc: string)
    requires forall i :: 0 <= i < |x| ==> !IsRecordSpecial(x[i])
    requires tail != [] && IsDelimiter(tail[0])
    ensures ScanField(x + tail, false, acc) == Some((acc + x, tail))
    decreases |x|
  {
    if x == [] {
      assert x + tail == tail;
      assert acc + x == acc;
    } else {
      assert (x + tail)[1..] == x[1..] + tail;
      ScanPlain(x[1..], tail, acc + [x[0]]);
      assert acc + [x[0]] + x[1..] == acc + x;
    }
  }

  /** Inside quotes, an escaped text followed by the closing quote scans as the text. */
  lemma {:induction false} ScanEscaped(x: string, tail: string, acc: string)
    requires tail == [] || tail[0] != '"'
    ensures ScanField(EscapeField(x) + "\"" + tail, true, acc) == ScanField(tail, false, acc + x)
    decreases |x|
  {
    var s := EscapeField(x) + "\"" + tail;
    if x == [] {
      assert s == "\"" + tail;
      assert s[1..] == tail;
      assert acc + x == acc;
    } else {
      var t := EscapeField(x[1..]) + "\"" + tail;
      ScanEscaped(x[1..], tail, acc + [x[0]]);
      if x[0] == '"' || x[0] == '\\' {
        assert s == [x[0], x[0]] + t;
        assert s[2..] == t;
      } else {
        assert s == [x[0]] + t;
        assert s[1..] == t;
      }
      assert acc + [x[0]] + x[1..] == acc + x;
    }
  }

  /** A quoted sub-field followed by a delimiter reads back as its text. */
  lemma ReadQuotedField(v: string, tail: string)
    requires tail != [] && IsDelimiter(tail[0])
    ensures ReadField("\"" + EscapeField(v) + "\"" + tail) == Some((Some(v), tail))
  {
    var s := "\"" + EscapeField(v) + "\"" + tail;
    assert s[0] == '"';
    assert s[1..] == EscapeField(v) + "\"" + tail;
    assert ScanField(s, false, "") == ScanField(s[1..], true, "");
    ScanEscaped(v, tail, "");
    assert "" + v == v;
    assert ScanField(tail, false, v) == Some((v, tail));
  }

  /** An unquoted non-empty sub-field followed by a delimiter reads back as itself. */
  lemma ReadPlainField(v: string, tail: string)
    requires v != [] && !NeedsQuotes(v)
    requires tail != [] && IsDelimiter(tail[0])
    ensures ReadField(v + tail) == Some((Some(v), tail))
  {
    assert !IsRecordSpecial(v[0]);
    assert (v + tail)[0] == v[0];
    ScanPlain(v, tail, "");
    assert "" + v == v;
  }

  /** One encoded sub-field followed by a delimiter reads back as its value. */
  lemma ReadEncodedField(v: string, tail: string)
    requires tail != [] && IsDelimiter(tail[0])
    ensures ReadField(EncodeField(v) + tail) == Some((FieldValue(v), tail))
  {
    if v == [] {
      assert EncodeField(v) + tail == tail;
    } else if NeedsQuotes(v) {
      ReadQuotedField(v, tail);
      assert EncodeField(v) + tail == "\"" + EscapeField(v) + "\"" + tail;
    } else {
      ReadPlainField(v, tail);
    }
  }

  /** The sub-field values as stored. */
  function FieldValues(vals: seq<string>): (r: seq<Option<string>>)
    ensures |r| == |vals|
  {
    seq(|vals|, i requires 0 <= i < |vals| => FieldValue(vals[i]))
  }

  /** The encoded, comma-joined sub-fields followed by `)` read back as the values. */
  lemma {:induction false} ReadEncodedFields(vals: seq<string>)
    requires |vals| > 0
    ensures ReadFields(Join(EncodeAll(vals), ",") + ")") == Some(FieldValues(vals))
    decreases |vals|
  {
    var enc := EncodeAll(vals);
    if |vals| == 1 {
      assert Join(enc, ",") == enc[0];
      ReadEncodedField(vals[0], ")");
      assert FieldValues(vals) == [FieldValue(vals[0])];
    } else {
      var more := vals[1..];
      var encMore := EncodeAll(more);
      assert enc[1..] == encMore;
      var tail := "," + Join(encMore, ",") + ")";
      assert Join(enc, ",") + ")" == EncodeField(vals[0]) + tail;
      ReadEncodedField(vals[0], tail);
      assert tail[1..] == Join(encMore, ",") + ")";
      ReadEncodedFields(more);
      assert [FieldValue(vals[0])] + FieldValues(more) == FieldValues(vals);
    }
  }

  /**
    Round trip: the database reads the corrected literal back as the stripped
    sub-fields, an empty one as NULL.
   */
  lemma CompositeValueReadBack(texts: seq<string>)
    requires CompositeValue(texts).Some?
    ensures RecordIn(CompositeValue(texts).value) == Some(FieldValues(StrippedFields(texts)))
  {
    var lit := CompositeValue(texts).value;
    assert lit[1..] == Join(EncodeAll(StrippedFields(texts)), ",") + ")";
    ReadEncodedFields(StrippedFields(texts));
  }

  /** As written, the sub-field `a\b` is sent as the literal `("a\b")`. */
  lemma BackslashSentAsWritten()
    ensures CompositeValueAsWritten(["a\\b"]) == Some("(\"a\\b\")")
  {
    SampleNotBlank();
    SampleStripped();
    SampleEncoded();
    assert "(" + Join(["\"a\\b\""], ",") + ")" == "(\"a\\b\")";
  }

  lemma SampleNotBlank()
    ensures !AllBlank(["a\\b"])
  {
    SampleStripped();
    assert StrippedFields(["a\\b"])[0] != "";
  }

  lemma SampleStripped()
    ensures StrippedFields(["a\\b"]) == ["a\\b"]
  {
    var x := "a\\b";
    StripUnpadded(x);
    var st := StrippedFields([x]);
    assert |st| == 1 && st[0] == Strip(x);
  }

  lemma SampleEncoded()
    ensures EncodeAllAsWritten(["a\\b"]) == ["\"a\\b\""]
  {
    var x := "a\\b";
    assert IsRecordSpecial(x[1]);
    DoubleAbsent(x, '"');
    var e := EncodeAllAsWritten([x]);
    assert NeedsQuotes(x);
    assert EncodeFieldAsWritten(x) == "\"" + x + "\"";
    assert |e| == 1 && e[0] == "\"a\\b\"";
  }

  /** The database reads the literal `("a\b")` as one sub-field `ab`: the backslash is lost. */
  lemma BackslashLostOnRead()
    ensures RecordIn("(\"a\\b\")") == Some([Some("ab")])
  {
    var s := "\"a\\b\")";
    assert ScanField(")", false, "ab") == Some(("ab", ")"));
    assert s[5..] == ")";
    assert s[4..] == "\")";
    assert ScanField(s[4..], true, "ab") == ScanField(")", false, "ab");
    assert s[2..] == "\\b\")";
    assert s[2..][2..] == s[4..];
    assert "a" + [s[2..][1]] == "ab";
    assert ScanField(s[2..], true, "a") == ScanField(s[4..], true, "ab");
    assert s[1..] == "a\\b\")";
    assert s[1..][1..] == s[2..];
    assert "" + [s[1..][0]] == "a";
    assert ScanField(s[1..], true, "") == ScanField(s[2..], true, "a");
    assert ScanField(s, false, "") == ScanField(s[1..], true, "");
    assert ReadField(s) == Some((Some("ab"), ")"));
    assert "(\"a\\b\")"[1..] == s;
  }
}
