/**
 * The few JavaScript string built-ins the core relies on, with the
 * semantics of the language: `split` on a one-character separator,
 * `join`, `replace` with a string pattern (first occurrence only),
 * `trim`, `parseInt(s, 10)` and the decimal rendering of a non-negative
 * integer.
 */
module Strings {
  import opened Wrappers

  // ---------------------------------------------------------------------
  // split / join
  // ---------------------------------------------------------------------

  /** `s.split(sep)` for a one-character separator: never empty, and no part holds `sep`. */
  function Split(s: string, sep: char): (parts: seq<string>)
    ensures |parts| >= 1
    ensures forall i :: 0 <= i < |parts| ==> sep !in parts[i]
    decreases |s|
  {
    if |s| == 0 then [""]
    else
      var rest := Split(s[1..], sep);
      if s[0] == sep then [""] + rest
      else [[s[0]] + rest[0]] + rest[1..]
  }

  /** `parts.join(sep)` for a one-character separator. */
  function Join(parts: seq<string>, sep: char): string
    decreases |parts|
  {
    if |parts| == 0 then ""
    else if |parts| == 1 then parts[0]
    else parts[0] + [sep] + Join(parts[1..], sep)
  }

  /** Every occurrence of `a` in `s` replaced by `b`. */
  function ReplaceChar(s: string, a: char, b: char): (r: string)
    ensures |r| == |s|
    ensures forall i :: 0 <= i < |s| ==> r[i] == (if s[i] == a then b else s[i])
  {
    if |s| == 0 then "" else [if s[0] == a then b else s[0]] + ReplaceChar(s[1..], a, b)
  }

  lemma JoinCons(p: string, rest: seq<string>, sep: char)
    requires |rest| >= 1
    ensures Join([p] + rest, sep) == p + [sep] + Join(rest, sep)
  {
    assert ([p] + rest)[1..] == rest;
  }

  /** Splitting on `a` and joining with `b` replaces every `a` by `b`. */
  lemma {:induction false} JoinSplitIsReplace(s: string, a: char, b: char)
    ensures Join(Split(s, a), b) == ReplaceChar(s, a, b)
    decreases |s|
  {
    if |s| > 0 {
      var rest := Split(s[1..], a);
      JoinSplitIsReplace(s[1..], a, b);
      if s[0] == a {
        JoinCons("", rest, b);
      } else if |rest| == 1 {
        assert Split(s, a) == [[s[0]] + rest[0]];
      } else {
        assert Split(s, a) == [[s[0]] + rest[0]] + rest[1..];
        JoinCons([s[0]] + rest[0], rest[1..], b);
        JoinCons(rest[0], rest[1..], b);
        assert rest == [rest[0]] + rest[1..];
      }
    }
  }

  /** Joining the parts of a split with the same separator gives the string back. */
  lemma JoinSplit(s: string, sep: char)
    ensures Join(Split(s, sep), sep) == s
  {
    JoinSplitIsReplace(s, sep, sep);
    assert ReplaceChar(s, sep, sep) == s;
  }

  /** A string without the separator splits into itself alone. */
  lemma {:induction false} SplitWithoutSep(s: string, sep: char)
    requires sep !in s
    ensures Split(s, sep) == [s]
    decreases |s|
  {
    if |s| > 0 {
      SplitWithoutSep(s[1..], sep);
      assert [s[0]] + s[1..] == s;
    }
  }

  /** A first part without the separator, then the separator: that part comes first and the rest splits on its own. */
  lemma {:induction false} SplitAtFirstSep(a: string, b: string, sep: char)
    requires sep !in a
    ensures Split(a + [sep] + b, sep) == [a] + Split(b, sep)
    decreases |a|
  {
    var s := a + [sep] + b;
    if |a| == 0 {
      assert s == [sep] + b;
      assert s[1..] == b;
    } else {
      assert s[0] == a[0];
      assert s[1..] == a[1..] + [sep] + b;
      SplitAtFirstSep(a[1..], b, sep);
      assert [a[0]] + a[1..] == a;
    }
  }

  /** The first part of a split is the prefix of `s` that stops at the first separator. */
  lemma {:induction false} SplitHead(s: string, sep: char)
    ensures |Split(s, sep)[0]| <= |s|
    ensures Split(s, sep)[0] == s[..|Split(s, sep)[0]|]
    ensures |Split(s, sep)[0]| < |s| ==> s[|Split(s, sep)[0]|] == sep
    decreases |s|
  {
    if |s| > 0 && s[0] != sep {
      SplitHead(s[1..], sep);
    }
  }

  /** The last part of a split is the suffix of `s` after its last separator, or all of `s`. */
  lemma {:induction false} SplitLast(s: string, sep: char)
    ensures var l := Split(s, sep)[|Split(s, sep)| - 1];
      |l| <= |s| && l == s[|s| - |l|..] &&
      (|Split(s, sep)| == 1 ==> l == s) &&
      (|Split(s, sep)| > 1 ==> |l| < |s| && s[|s| - |l| - 1] == sep)
    decreases |s|
  {
    if |s| > 0 {
      var rest := Split(s[1..], sep);
      SplitLast(s[1..], sep);
      var l := rest[|rest| - 1];
      assert s[|s| - |l|..] == s[1..][|s[1..]| - |l|..];
      if s[0] != sep && |rest| == 1 {
        assert Split(s, sep) == [[s[0]] + rest[0]];
        assert [s[0]] + rest[0] == s;
      } else if s[0] != sep {
        assert Split(s, sep) == [[s[0]] + rest[0]] + rest[1..];
      } else {
        assert Split(s, sep) == [""] + rest;
      }
    }
  }

  // ---------------------------------------------------------------------
  // replace with a string pattern (first occurrence)
  // ---------------------------------------------------------------------

  /** `pat` occurs in `s` starting at index `j`. */
  predicate OccursAt(s: string, pat: string, j: nat) {
    j + |pat| <= |s| && s[j..j + |pat|] == pat
  }

  /** Index of the first occurrence of `pat` in `s` at or after `from`. */
  function IndexOfFrom(s: string, pat: string, from: nat): (r: Option<nat>)
    requires from <= |s|
    ensures r.Some? ==> from <= r.value && OccursAt(s, pat, r.value)
    ensures r.Some? ==> forall j :: from <= j < r.value ==> !OccursAt(s, pat, j)
    ensures r.None? ==> forall j :: from <= j ==> !OccursAt(s, pat, j)
    decreases |s| - from
  {
    if from + |pat| > |s| then None
    else if OccursAt(s, pat, from) then Some(from)
    else IndexOfFrom(s, pat, from + 1)
  }

  /** `s.replace(pat, rep)`: only the first occurrence is replaced; no occurrence leaves `s` as it is. */
  function ReplaceFirst(s: string, pat: string, rep: string): string
  {
    match IndexOfFrom(s, pat, 0)
    case None => s
    case Some(i) => s[..i] + rep + s[i + |pat|..]
  }

  /** Removing a prefix that the string was built from gives back the rest. */
  lemma ReplacePrefix(pat: string, rest: string)
    ensures ReplaceFirst(pat + rest, pat, "") == rest
  {
    assert OccursAt(pat + rest, pat, 0) by { assert (pat + rest)[0..|pat|] == pat; }
    assert (pat + rest)[|pat|..] == rest;
  }

  // ---------------------------------------------------------------------
  // trim
  // ---------------------------------------------------------------------

  /** The white space `trim` removes: space, tab, line feed, carriage return, form feed and vertical tab. */
  predicate IsSpace(c: char) {
    c == ' ' || c == '\t' || c == '\n' || c == '\r' || c == '\U{000C}' || c == '\U{000B}'
  }

  function TrimStart(s: string): (r: string)
    ensures |r| <= |s| && r == s[|s| - |r|..]
    ensures |r| > 0 ==> !IsSpace(r[0])
    ensures forall i :: 0 <= i < |s| - |r| ==> IsSpace(s[i])
  {
    if |s| > 0 && IsSpace(s[0]) then TrimStart(s[1..]) else s
  }

  function TrimEnd(s: string): (r: string)
    ensures |r| <= |s| && r == s[..|r|]
    ensures |r| > 0 ==> !IsSpace(r[|r| - 1])
    ensures forall i :: |r| <= i < |s| ==> IsSpace(s[i])
  {
    if |s| > 0 && IsSpace(s[|s| - 1]) then TrimEnd(s[..|s| - 1]) else s
  }

  /** `s.trim()` over the white-space characters of IsSpace. */
  function Trim(s: string): (r: string)
    ensures |r| > 0 ==> !IsSpace(r[0]) && !IsSpace(r[|r| - 1])
  {
    TrimEnd(TrimStart(s))
  }

  /** Trimming is idempotent. */
  lemma TrimIdempotent(s: string)
    ensures Trim(Trim(s)) == Trim(s)
  {
    var r := Trim(s);
    if |r| > 0 {
      assert TrimStart(r) == r;
      assert TrimEnd(r) == r;
    }
  }

  // ---------------------------------------------------------------------
  // decimal digits
  // ---------------------------------------------------------------------

  predicate IsDigit(c: char) { '0' <= c <= '9' }

  predicate AllDigits(s: string) { forall i :: 0 <= i < |s| ==> IsDigit(s[i]) }

  function DigitChar(d: nat): (c: char)
    requires d < 10
    ensures IsDigit(c)
  {
    ['0','1','2','3','4','5','6','7','8','9'][d]
  }

  function DigitValue(c: char): (d: nat)
    requires IsDigit(c)
    ensures d < 10
  {
    (c as int - '0' as int) as nat
  }

  lemma DigitRoundTrip(d: nat)
    requires d < 10
    ensures DigitValue(DigitChar(d)) == d
  {
  }

  /** `String(n)` for a non-negative integer: its shortest decimal numeral. */
  function NatToDecimal(n: nat): (s: string)
    ensures |s| >= 1 && AllDigits(s)
    ensures |s| > 1 ==> s[0] != '0'
  {
    if n < 10 then [DigitChar(n)] else NatToDecimal(n / 10) + [DigitChar(n % 10)]
  }

  /** Value of a numeral read left to right. */
  function DigitsValue(s: string): nat
    requires AllDigits(s)
    decreases |s|
  {
    if |s| == 0 then 0 else DigitsValue(s[..|s| - 1]) * 10 + DigitValue(s[|s| - 1])
  }

  lemma {:induction false} DecimalValue(n: nat)
    ensures DigitsValue(NatToDecimal(n)) == n
  {
    if n >= 10 {
      var s := NatToDecimal(n);
      assert s[..|s| - 1] == NatToDecimal(n / 10);
      DecimalValue(n / 10);
      DigitRoundTrip(n % 10);
    } else {
      DigitRoundTrip(n);
    }
  }

  /** Length of the longest all-digit prefix of `s`. */
  function DigitRun(s: string): (k: nat)
    ensures k <= |s| && AllDigits(s[..k])
    ensures k < |s| ==> !IsDigit(s[k])
  {
    if |s| == 0 || !IsDigit(s[0]) then 0
    else
      var k := DigitRun(s[1..]);
      assert s[..1 + k] == [s[0]] + s[1..][..k];
      1 + k
  }

  /**
   * `parseInt(s, 10)`: an optional sign then the longest run of digits;
   * `None` stands for NaN (no digit after the sign). Leading white space,
   * which JavaScript skips, is not modelled.
   */
  function ParseInt(s: string): Option<int>
  {
    var neg := |s| > 0 && s[0] == '-';
    var start := if |s| > 0 && (s[0] == '-' || s[0] == '+') then 1 else 0;
    var body := s[start..];
    var k := DigitRun(body);
    var v: int := if k == 0 then 0 else DigitsValue(body[..k]);
    if k == 0 then None else Some(if neg then -v else v)
  }

  /** Reading back what `String(n)` wrote gives `n`. */
  lemma ParseIntDecimal(n: nat)
    ensures ParseInt(NatToDecimal(n)) == Some(n)
  {
    var s := NatToDecimal(n);
    assert s[0..] == s;
    AllDigitsRun(s);
    assert s[..|s|] == s;
    DecimalValue(n);
  }
  /** Reading back what `String(-n)` wrote for a negative `-n` gives `-n`. */
  lemma ParseIntNegative(n: nat)
    ensures ParseInt("-" + NatToDecimal(n)) == Some(-(n as int))
  {
    var d := NatToDecimal(n);
    ParseIntDecimal(n);
    assert ("-" + d)[1..] == d;
    assert d[0..] == d;
  }


  lemma {:induction false} AllDigitsRun(s: string)
    requires AllDigits(s)
    ensures DigitRun(s) == |s|
    decreases |s|
  {
    if |s| > 0 {
      AllDigitsRun(s[1..]);
    }
  }
}
