/**
  The parts of Python's `str` that the dialogs use: `strip`, `in`, `startswith`,
  `join`, `replace`, `isdigit`, `upper` and `split(' ')[0]`, on Dafny strings.
 */
module Text {

  /** Python's `str.isspace()` for one character (the ASCII controls, the blank and the Unicode spaces). */
  predicate IsSpace(c: char) {
    || ('\t' <= c <= '\r')
    || ('\U{1C}' <= c <= ' ')
    || c == '\U{85}' || c == '\U{A0}' || c == '\U{1680}'
    || ('\U{2000}' <= c <= '\U{200A}')
    || c == '\U{2028}' || c == '\U{2029}' || c == '\U{202F}' || c == '\U{205F}' || c == '\U{3000}'
  }

  /** `s.rstrip()` */
  function TrimRight(s: string): (r: string)
    ensures |r| <= |s| && r == s[..|r|]
    ensures r == [] || !IsSpace(r[|r| - 1])
    ensures forall i :: |r| <= i < |s| ==> IsSpace(s[i])
    decreases |s|
  {
    if s != [] && IsSpace(s[|s| - 1]) then TrimRight(s[..|s| - 1]) else s
  }

  /** `s.strip()`: the text between the leading and the trailing white space. */
  function Strip(s: string): (r: string)
    ensures |r| <= |s|
    ensures r == [] || (!IsSpace(r[0]) && !IsSpace(r[|r| - 1]))
    ensures r == [] <==> forall i :: 0 <= i < |s| ==> IsSpace(s[i])
    decreases |s|
  {
    if s != [] && IsSpace(s[0]) then
      var r := Strip(s[1..]);
      assert forall i :: 1 <= i < |s| ==> s[i] == s[1..][i - 1];
      r
    else
      TrimRight(s)
  }

  /** A string with no white space at either end is its own `strip()`. */
  lemma StripUnpadded(s: string)
    requires s == [] || (!IsSpace(s[0]) && !IsSpace(s[|s| - 1]))
    ensures Strip(s) == s
  {
  }

  /** `strip()` is idempotent: stripping the stripped text again changes nothing. */
  lemma StripIdempotent(s: string)
    ensures Strip(Strip(s)) == Strip(s)
  {
    StripUnpadded(Strip(s));
  }

  /** Leading white space makes no difference to `strip()`. */
  lemma {:induction false} StripPadded(pad: string, s: string)
    requires forall i :: 0 <= i < |pad| ==> IsSpace(pad[i])
    ensures Strip(pad + s) == Strip(s)
    decreases |pad|
  {
    if pad == [] {
      assert pad + s == s;
    } else {
      assert (pad + s)[1..] == pad[1..] + s;
      StripPadded(pad[1..], s);
    }
  }

  /** Appending nothing changes nothing. */
  lemma AppendEmpty(s: string)
    ensures s + "" == s
  {
  }

  /** Concatenation is associative. */
  lemma ConcatAssoc(a: string, b: string, c: string)
    ensures (a + b) + c == a + (b + c)
  {
  }

  /** Cutting a text's first part off leaves the rest. */
  lemma DropPrefix(prefix: string, rest: string)
    ensures (prefix + rest)[|prefix|..] == rest
  {
  }

  /** The first two parts of a three-part text are where they were put. */
  lemma MiddleOf(a: string, b: string, c: string)
    ensures (a + b + c)[..|a|] == a && (a + b + c)[|a|..|a| + |b|] == b
  {
  }

  /** A text ends with whatever it was finished with. */
  lemma SuffixEnds(prefix: string, suffix: string)
    ensures EndsWith(prefix + suffix, suffix)
  {
    assert (prefix + suffix)[|prefix + suffix| - |suffix|..] == suffix;
  }

  /** `s.startswith(prefix)` */
  predicate StartsWith(s: string, prefix: string) {
    |prefix| <= |s| && s[..|prefix|] == prefix
  }
  /** A text starts with whatever it was built from. */
  lemma PrefixStarts(prefix: string, rest: string)
    ensures StartsWith(prefix + rest, prefix)
  {
    assert (prefix + rest)[..|prefix|] == prefix;
  }


  /** `s.endswith(suffix)` */
  predicate EndsWith(s: string, suffix: string) {
    |suffix| <= |s| && s[|s| - |suffix|..] == suffix
  }

  /** Python's `sub in s` for strings. */
  predicate Contains(s: string, sub: string)
    decreases |s|
  {
    StartsWith(s, sub) || (s != [] && Contains(s[1..], sub))
  }

  /** An occurrence at index `k` makes `sub in s` true. */
  lemma {:induction false} ContainsAt(s: string, sub: string, k: nat)
    requires k + |sub| <= |s|
    requires forall j :: 0 <= j < |sub| ==> s[k + j] == sub[j]
    ensures Contains(s, sub)
    decreases k
  {
    if k > 0 {
      forall j | 0 <= j < |sub| ensures s[1..][k - 1 + j] == sub[j] {
        assert s[1..][k - 1 + j] == s[k + j];
      }
      ContainsAt(s[1..], sub, k - 1);
    } else {
      assert s[..|sub|] == sub;
    }
  }

  /** `sub in s` is false when the first character of `sub` never occurs in `s`. */
  lemma {:induction false} AbsentHead(s: string, sub: string)
    requires |sub| > 0
    requires forall i :: 0 <= i < |s| ==> s[i] != sub[0]
    ensures !Contains(s, sub)
    decreases |s|
  {
    if s != [] {
      if |sub| <= |s| {
        assert s[..|sub|][0] != sub[0];
      }
      AbsentHead(s[1..], sub);
    }
  }

  /** `sub in s` is false when no occurrence of `sub[0]` in `s` is followed by `sub[1]`. */
  lemma {:induction false} AbsentPair(s: string, sub: string)
    requires |sub| > 1
    requires forall i :: 0 <= i < |s| - 1 && s[i] == sub[0] ==> s[i + 1] != sub[1]
    ensures !Contains(s, sub)
    decreases |s|
  {
    if s != [] {
      if |sub| <= |s| {
        assert s[..|sub|][0] != sub[0] || s[..|sub|][1] != sub[1];
      }
      forall i | 0 <= i < |s[1..]| - 1 && s[1..][i] == sub[0] ensures s[1..][i + 1] != sub[1] {
        assert s[i + 1] == sub[0];
      }
      AbsentPair(s[1..], sub);
    }
  }

  /** `sub in s` is false when no occurrence of `sub[0]` followed by `sub[1]` is followed by `sub[2]`. */
  lemma {:induction false} AbsentTriple(s: string, sub: string)
    requires |sub| > 2
    requires forall i :: 0 <= i < |s| - 2 && s[i] == sub[0] && s[i + 1] == sub[1] ==> s[i + 2] != sub[2]
    ensures !Contains(s, sub)
    decreases |s|
  {
    if s != [] {
      if |sub| <= |s| {
        assert s[..|sub|][0] != sub[0] || s[..|sub|][1] != sub[1] || s[..|sub|][2] != sub[2];
      }
      forall i | 0 <= i < |s[1..]| - 2 && s[1..][i] == sub[0] && s[1..][i + 1] == sub[1]
        ensures s[1..][i + 2] != sub[2]
      {
        assert s[i + 1] == sub[0] && s[i + 2] == sub[1];
      }
      AbsentTriple(s[1..], sub);
    }
  }

  /** The index of the first `c` in `s`, or `|s|` when there is none (Python's `find`, with `|s|` for -1). */
  function IndexOf(s: string, c: char): (k: nat)
    ensures k <= |s|
    ensures forall i :: 0 <= i < k ==> s[i] != c
    ensures k < |s| ==> s[k] == c
  {
    if s == [] then 0 else if s[0] == c then 0 else 1 + IndexOf(s[1..], c)
  }

  /** The first `c` of `a + b` is the first character of `b` when `a` has none. */
  lemma IndexOfAfter(a: string, b: string, c: char)
    requires forall i :: 0 <= i < |a| ==> a[i] != c
    requires b != [] && b[0] == c
    ensures IndexOf(a + b, c) == |a|
  {
    assert (a + b)[|a|] == c;
    assert forall i :: 0 <= i < |a| ==> (a + b)[i] == a[i];
  }

  /** `s.split(' ')[0]`: everything before the first blank. */
  function FirstWord(s: string): (w: string)
    ensures StartsWith(s, w)
    ensures forall i :: 0 <= i < |w| ==> w[i] != ' '
    ensures |w| < |s| ==> s[|w|] == ' '
  {
    s[..IndexOf(s, ' ')]
  }

  /** The first word of `w + " " + rest` is `w` when `w` has no blank. */
  lemma FirstWordOf(w: string, rest: string)
    requires forall i :: 0 <= i < |w| ==> w[i] != ' '
    ensures FirstWord(w + " " + rest) == w
  {
    assert w + " " + rest == w + (" " + rest);
    IndexOfAfter(w, " " + rest, ' ');
  }

  /** Python's `sep.join(xs)`. */
  function Join(xs: seq<string>, sep: string): string
    decreases |xs|
  {
    if |xs| == 0 then "" else if |xs| == 1 then xs[0] else xs[0] + sep + Join(xs[1..], sep)
  }

  /** Joining a first part onto the rest puts the separator between them, if there is a rest. */
  lemma JoinCons(x: string, xs: seq<string>, sep: string)
    ensures Join([x] + xs, sep) == if xs == [] then x else x + sep + Join(xs, sep)
  {
    assert ([x] + xs)[1..] == xs;
  }

  /**
    Cuts `s` at each occurrence of the first character of `sep`, dropping `|sep|`
    characters there: the inverse of `Join` for parts free of that character.
   */
  function Unjoin(s: string, sep: string): seq<string>
    requires |sep| > 0
    decreases |s|
  {
    var k := IndexOf(s, sep[0]);
    if k == |s| then [s]
    else if k + |sep| <= |s| then [s[..k]] + Unjoin(s[k + |sep|..], sep)
    else [s[..k]]
  }

  /** Joining a non-empty list of parts that avoid the separator's first character can be undone. */
  lemma {:induction false} UnjoinJoin(xs: seq<string>, sep: string)
    requires |sep| > 0 && |xs| > 0
    requires forall j, i :: 0 <= j < |xs| && 0 <= i < |xs[j]| ==> xs[j][i] != sep[0]
    ensures Unjoin(Join(xs, sep), sep) == xs
    decreases |xs|
  {
    if |xs| == 1 {
      assert IndexOf(xs[0], sep[0]) == |xs[0]|;
    } else {
      var s := Join(xs, sep);
      var tail := Join(xs[1..], sep);
      assert s == xs[0] + (sep + tail);
      IndexOfAfter(xs[0], sep + tail, sep[0]);
      assert s[..|xs[0]|] == xs[0];
      assert s[|xs[0]| + |sep|..] == tail;
      UnjoinJoin(xs[1..], sep);
      assert [xs[0]] + xs[1..] == xs;
    }
  }

  /**
    Cuts `s` at each occurrence of the last character of `sep`, dropping the `|sep|`
    characters that end there: the inverse of `Join` for parts free of that character,
    whatever else of `sep` they hold.
   */
  function UnjoinAtLast(s: string, sep: string): seq<string>
    requires |sep| > 0
    decreases |s|
  {
    var k := IndexOf(s, sep[|sep| - 1]);
    if k == |s| then [s]
    else if k + 1 >= |sep| then [s[..k + 1 - |sep|]] + UnjoinAtLast(s[k + 1..], sep)
    else [s]
  }

  /** Joining parts that avoid the separator's last character can be undone, when that character ends the separator only. */
  lemma {:induction false} UnjoinAtLastJoin(xs: seq<string>, sep: string)
    requires |sep| > 0 && |xs| > 0
    requires forall i :: 0 <= i < |sep| - 1 ==> sep[i] != sep[|sep| - 1]
    requires forall j, i :: 0 <= j < |xs| && 0 <= i < |xs[j]| ==> xs[j][i] != sep[|sep| - 1]
    ensures UnjoinAtLast(Join(xs, sep), sep) == xs
    decreases |xs|
  {
    var c := sep[|sep| - 1];
    if |xs| == 1 {
      assert IndexOf(xs[0], c) == |xs[0]|;
    } else {
      var s := Join(xs, sep);
      var tail := Join(xs[1..], sep);
      var front := xs[0] + sep[..|sep| - 1];
      assert s == front + ([c] + tail);
      forall i | 0 <= i < |front| ensures front[i] != c {
        if i >= |xs[0]| {
          assert front[i] == sep[i - |xs[0]|];
        }
      }
      IndexOfAfter(front, [c] + tail, c);
      assert s[..|xs[0]|] == xs[0];
      assert s[|xs[0]| + |sep|..] == tail;
      UnjoinAtLastJoin(xs[1..], sep);
      assert [xs[0]] + xs[1..] == xs;
    }
  }

  /** Python's `s.replace(q, q + q)`: every `q` doubled. */
  function Double(s: string, q: char): (r: string)
    ensures |r| >= |s|
    decreases |s|
  {
    if s == [] then [] else (if s[0] == q then [q, q] else [s[0]]) + Double(s[1..], q)
  }

  /** Doubling leaves a string without `q` as it is. */
  lemma {:induction false} DoubleAbsent(s: string, q: char)
    requires forall i :: 0 <= i < |s| ==> s[i] != q
    ensures Double(s, q) == s
    decreases |s|
  {
    if s != [] {
      DoubleAbsent(s[1..], q);
      assert [s[0]] + s[1..] == s;
    }
  }

  /** An ASCII decimal digit. */
  predicate IsDigit(c: char) {
    '0' <= c <= '9'
  }

  /** Every character is a digit (true of the empty string). */
  predicate AllDigits(s: string) {
    forall i :: 0 <= i < |s| ==> IsDigit(s[i])
  }

  /** Python's `s.isdigit()` on ASCII: non-empty and all digits. */
  predicate IsDigits(s: string) {
    |s| > 0 && AllDigits(s)
  }

  /** Python's `s.replace(c, '', 1)`: the first `c` removed. */
  function RemoveFirst(s: string, c: char): (r: string)
    ensures |r| == (if IndexOf(s, c) < |s| then |s| - 1 else |s|)
  {
    var k := IndexOf(s, c);
    if k == |s| then s else s[..k] + s[k + 1..]
  }

  /** Python's `c.upper()` on ASCII letters. */
  function UpperChar(c: char): char {
    if 'a' <= c <= 'z' then (c as int - 'a' as int + 'A' as int) as char else c
  }

  /** Python's `s.upper()` on ASCII letters. */
  function Upper(s: string): (r: string)
    ensures |r| == |s|
    ensures forall i :: 0 <= i < |s| ==> r[i] == UpperChar(s[i])
  {
    seq(|s|, i requires 0 <= i < |s| => UpperChar(s[i]))
  }

  /** The decimal digit for `d < 10`. */
  function DigitChar(d: nat): char
    requires d < 10
  {
    ('0' as int + d) as char
  }

  /** The value of a digit string. */
  function DigitsValue(s: string): nat
    requires AllDigits(s)
  {
    if s == [] then 0 else 10 * DigitsValue(s[..|s| - 1]) + (s[|s| - 1] as int - '0' as int)
  }

  /** Python's `str(n)` for a natural number. */
  function NatToString(n: nat): (r: string)
    ensures IsDigits(r)
    ensures DigitsValue(r) == n
    ensures r[0] == '0' ==> n == 0
  {
    if n < 10 then [DigitChar(n)]
    else
      var p := NatToString(n / 10);
      var r := p + [DigitChar(n % 10)];
      assert r[..|r| - 1] == p;
      r
  }
  /** How many times `c` occurs in `s`. */
  function CountChar(s: string, c: char): nat
    decreases |s|
  {
    if s == [] then 0 else (if s[0] == c then 1 else 0) + CountChar(s[1..], c)
  }

  /** Counting occurrences distributes over concatenation. */
  lemma {:induction false} CountCharConcat(a: string, b: string, c: char)
    ensures CountChar(a + b, c) == CountChar(a, c) + CountChar(b, c)
    decreases |a|
  {
    if a == [] {
      assert a + b == b;
    } else {
      assert (a + b)[1..] == a[1..] + b;
      CountCharConcat(a[1..], b, c);
    }
  }

  /** A text without `c` counts none. */
  lemma {:induction false} CountCharAbsent(s: string, c: char)
    requires forall i :: 0 <= i < |s| ==> s[i] != c
    ensures CountChar(s, c) == 0
    decreases |s|
  {
    if s != [] {
      CountCharAbsent(s[1..], c);
    }
  }
}
