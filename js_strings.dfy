/**
 * The JavaScript string operations the pipeline relies on, on `seq<char>`:
 * `trim`, `toLowerCase` (ASCII letters only), `split` and `join` on a one-character
 * separator, `includes`, the default sort order of strings, `String(n)` for an
 * integer and `parseInt(s, 10)`.
 */
module JsStrings {
  import opened Wrappers

  // ---------------------------------------------------------------- trim

  /** The characters `String.prototype.trim` removes: WhiteSpace and LineTerminator. */
  predicate IsWhitespace(c: char) {
    c == ' ' || c == '\t' || c == '\n' || c == '\r' || c == '\U{B}' || c == '\U{C}'
    || c == '\U{A0}' || c == '\U{1680}' || ('\U{2000}' <= c <= '\U{200A}')
    || c == '\U{2028}' || c == '\U{2029}' || c == '\U{202F}' || c == '\U{205F}'
    || c == '\U{3000}' || c == '\U{FEFF}'
  }

  predicate IsBlank(s: string) {
    forall i :: 0 <= i < |s| ==> IsWhitespace(s[i])
  }

  function TrimStart(s: string): string
    decreases |s|
  {
    if |s| > 0 && IsWhitespace(s[0]) then TrimStart(s[1..]) else s
  }

  function TrimEnd(s: string): string
    decreases |s|
  {
    if |s| > 0 && IsWhitespace(s[|s| - 1]) then TrimEnd(s[..|s| - 1]) else s
  }

  function Trim(s: string): string {
    TrimEnd(TrimStart(s))
  }

  lemma {:induction false} TrimStartEmpty(s: string)
    ensures TrimStart(s) == "" <==> IsBlank(s)
    ensures TrimStart(s) != "" ==> !IsWhitespace(TrimStart(s)[0])
    decreases |s|
  {
    if |s| > 0 && IsWhitespace(s[0]) {
      TrimStartEmpty(s[1..]);
      assert IsBlank(s) <==> IsBlank(s[1..]) by {
        if IsBlank(s[1..]) {
          forall i | 0 <= i < |s| ensures IsWhitespace(s[i]) {
            if i > 0 { assert s[i] == s[1..][i - 1]; }
          }
        }
        if IsBlank(s) {
          forall i | 0 <= i < |s| - 1 ensures IsWhitespace(s[1..][i]) {
            assert s[1..][i] == s[i + 1];
          }
        }
      }
    }
  }

  lemma {:induction false} TrimEndEmpty(s: string)
    ensures TrimEnd(s) == "" <==> IsBlank(s)
    decreases |s|
  {
    if |s| > 0 && IsWhitespace(s[|s| - 1]) {
      var t := s[..|s| - 1];
      TrimEndEmpty(t);
      assert IsBlank(s) <==> IsBlank(t) by {
        if IsBlank(t) {
          forall i | 0 <= i < |s| ensures IsWhitespace(s[i]) {
            if i < |s| - 1 { assert s[i] == t[i]; }
          }
        }
      }
    }
  }

  /** `line.trim() !== ''` holds exactly of lines that are not all whitespace. */
  lemma {:induction false} TrimEmptyIffBlank(s: string)
    ensures Trim(s) == "" <==> IsBlank(s)
  {
    TrimStartEmpty(s);
    TrimEndEmpty(TrimStart(s));
  }

  // ---------------------------------------------------------------- toLowerCase

  function LowerChar(c: char): char {
    if 'A' <= c <= 'Z' then (c as int + 32) as char else c
  }

  function ToLower(s: string): string {
    seq(|s|, i requires 0 <= i < |s| => LowerChar(s[i]))
  }

  // ---------------------------------------------------------------- split and join

  /** `s.split(sep)`: the pieces between occurrences of `sep`; never empty. */
  function Split(s: string, sep: char): (parts: seq<string>)
    ensures |parts| >= 1
    ensures forall p :: p in parts ==> sep !in p
    decreases |s|
  {
    if |s| == 0 then [""]
    else
      var rest := Split(s[1..], sep);
      if s[0] == sep then [""] + rest
      else
        assert rest[0] in rest;
        [[s[0]] + rest[0]] + rest[1..]
  }

  /** `parts.join(sep)`. */
  function Join(parts: seq<string>, sep: char): string
    decreases |parts|
  {
    if |parts| == 0 then ""
    else if |parts| == 1 then parts[0]
    else parts[0] + [sep] + Join(parts[1..], sep)
  }

  lemma {:induction false} SplitAfterPiece(a: string, b: string, sep: char)
    requires sep !in a
    ensures Split(a + b, sep) == [a + Split(b, sep)[0]] + Split(b, sep)[1..]
    decreases |a|
  {
    if |a| == 0 {
      assert a + b == b;
      assert a + Split(b, sep)[0] == Split(b, sep)[0];
      assert Split(b, sep) == [Split(b, sep)[0]] + Split(b, sep)[1..];
    } else {
      assert (a + b)[1..] == a[1..] + b;
      assert (a + b)[0] == a[0];
      SplitAfterPiece(a[1..], b, sep);
      assert [a[0]] + (a[1..] + Split(b, sep)[0]) == a + Split(b, sep)[0];
    }
  }

  /** Splitting a join gives the pieces back when no piece holds the separator. */
  lemma {:induction false} SplitJoin(parts: seq<string>, sep: char)
    requires |parts| >= 1
    requires forall p :: p in parts ==> sep !in p
    ensures Split(Join(parts, sep), sep) == parts
    decreases |parts|
  {
    if |parts| == 1 {
      SplitAfterPiece(parts[0], "", sep);
      assert parts[0] + "" == parts[0];
    } else {
      var rest := Join(parts[1..], sep);
      SplitJoin(parts[1..], sep);
      assert parts[0] + [sep] + rest == parts[0] + ([sep] + rest);
      SplitAfterPiece(parts[0], [sep] + rest, sep);
      assert ([sep] + rest)[1..] == rest && ([sep] + rest)[0] == sep;
      assert Split([sep] + rest, sep) == [""] + Split(rest, sep);
      assert parts[0] + "" == parts[0];
      assert parts == [parts[0]] + parts[1..];
    }
  }

  // ---------------------------------------------------------------- includes

  predicate StartsWith(s: string, prefix: string) {
    |prefix| <= |s| && s[..|prefix|] == prefix
  }

  /** `s.includes(sub)`, scanning left to right. */
  predicate Includes(s: string, sub: string)
    decreases |s|
  {
    StartsWith(s, sub) || (|s| > 0 && Includes(s[1..], sub))
  }

  predicate OccursAt(s: string, sub: string, i: int) {
    0 <= i && i + |sub| <= |s| && s[i..i + |sub|] == sub
  }

  /** `sub` is a contiguous piece of `s`. */
  ghost predicate HasSubstring(s: string, sub: string) {
    exists i :: OccursAt(s, sub, i)
  }

  lemma {:induction false} IncludesIff(s: string, sub: string)
    ensures Includes(s, sub) <==> HasSubstring(s, sub)
    decreases |s|
  {
    if StartsWith(s, sub) {
      assert OccursAt(s, sub, 0);
    }
    if |s| > 0 {
      IncludesIff(s[1..], sub);
      if HasSubstring(s[1..], sub) {
        var i :| OccursAt(s[1..], sub, i);
        assert s[1..][i..i + |sub|] == s[i + 1..i + 1 + |sub|];
        assert OccursAt(s, sub, i + 1);
      }
      if HasSubstring(s, sub) {
        var i :| OccursAt(s, sub, i);
        if i > 0 {
          assert s[1..][i - 1..i - 1 + |sub|] == s[i..i + |sub|];
          assert OccursAt(s[1..], sub, i - 1);
        } else {
          assert StartsWith(s, sub);
        }
      }
    } else if HasSubstring(s, sub) {
      var i :| OccursAt(s, sub, i);
      assert StartsWith(s, sub);
    }
  }

  /** No piece of `s` equals `sub` when `s` lacks the first character of `sub`. */
  lemma NoSubstringWithoutChar(s: string, sub: string)
    requires |sub| > 0 && sub[0] !in s
    ensures !HasSubstring(s, sub)
  {
    forall i | 0 <= i && i + |sub| <= |s|
      ensures !OccursAt(s, sub, i)
    {
      assert s[i..i + |sub|][0] == s[i] && s[i] in s;
    }
  }

  // ---------------------------------------------------------------- order

  /** `a` sorts strictly before `b` by character codes, as `Array.prototype.sort` does by default. */
  predicate Less(a: string, b: string)
    decreases |a|
  {
    |b| > 0 && (|a| == 0 || a[0] < b[0] || (a[0] == b[0] && Less(a[1..], b[1..])))
  }

  lemma {:induction false} LessIrreflexive(a: string)
    ensures !Less(a, a)
    decreases |a|
  {
    if |a| > 0 {
      LessIrreflexive(a[1..]);
    }
  }

  lemma {:induction false} LessTransitive(a: string, b: string, c: string)
    requires Less(a, b) && Less(b, c)
    ensures Less(a, c)
    decreases |a|
  {
    if |a| > 0 && a[0] == b[0] && b[0] == c[0] {
      LessTransitive(a[1..], b[1..], c[1..]);
    }
  }

  lemma {:induction false} LessTotal(a: string, b: string)
    ensures a == b || Less(a, b) || Less(b, a)
    decreases |a|
  {
    if |a| > 0 && |b| > 0 && a[0] == b[0] {
      LessTotal(a[1..], b[1..]);
      if a[1..] == b[1..] {
        assert a == [a[0]] + a[1..] && b == [b[0]] + b[1..];
      }
    }
  }

  lemma {:induction false} LessAsymmetric(a: string, b: string)
    ensures !(Less(a, b) && Less(b, a))
  {
    if Less(a, b) && Less(b, a) {
      LessTransitive(a, b, a);
      LessIrreflexive(a);
    }
  }

  // ---------------------------------------------------------------- numbers as text

  predicate IsDigit(c: char) {
    '0' <= c <= '9'
  }

  function DigitChar(d: nat): char
    requires d < 10
  {
    ('0' as int + d) as char
  }

  function NatToString(n: nat): string
    decreases n
  {
    if n < 10 then [DigitChar(n)] else NatToString(n / 10) + [DigitChar(n % 10)]
  }

  /** `String(n)` for an integer: an optional minus sign and decimal digits. */
  function IntToString(n: int): string {
    if n < 0 then "-" + NatToString(-n) else NatToString(n)
  }

  predicate IsNumeral(s: string) {
    forall i :: 0 <= i < |s| ==> s[i] == '-' || IsDigit(s[i])
  }

  lemma {:induction false} NatToStringNumeral(n: nat)
    ensures IsNumeral(NatToString(n)) && |NatToString(n)| > 0
    decreases n
  {
    if n >= 10 {
      NatToStringNumeral(n / 10);
    }
  }

  lemma IntToStringNumeral(n: int)
    ensures IsNumeral(IntToString(n))
  {
    NatToStringNumeral(if n < 0 then -n else n);
  }

  // ---------------------------------------------------------------- parseInt

  function DigitValue(c: char): nat
    requires IsDigit(c)
  {
    c as int - '0' as int
  }

  /** The longest prefix of `s` made of decimal digits. */
  function LeadingDigits(s: string): (ds: string)
    ensures |ds| <= |s| && ds == s[..|ds|]
    ensures forall i :: 0 <= i < |ds| ==> IsDigit(ds[i])
    decreases |s|
  {
    if |s| > 0 && IsDigit(s[0]) then [s[0]] + LeadingDigits(s[1..]) else ""
  }

  function DigitsValue(ds: string): nat
    requires forall i :: 0 <= i < |ds| ==> IsDigit(ds[i])
    decreases |ds|
  {
    if |ds| == 0 then 0 else DigitsValue(ds[..|ds| - 1]) * 10 + DigitValue(ds[|ds| - 1])
  }

  /**
   * `parseInt(s, 10)`: skip leading whitespace, read an optional sign and the longest
   * run of digits; None stands for NaN (no digit at all).
   */
  function ParseInt(s: string): Option<int> {
    var t := TrimStart(s);
    var signed := |t| > 0 && (t[0] == '-' || t[0] == '+');
    var ds := LeadingDigits(if signed then t[1..] else t);
    var magnitude: int := DigitsValue(ds);
    if |ds| == 0 then None
    else if signed && t[0] == '-' then Some(-magnitude)
    else Some(magnitude)
  }

  lemma {:induction false} LeadingDigitsOfDigits(ds: string)
    requires forall i :: 0 <= i < |ds| ==> IsDigit(ds[i])
    ensures LeadingDigits(ds) == ds
    decreases |ds|
  {
    if |ds| > 0 {
      LeadingDigitsOfDigits(ds[1..]);
      assert ds == [ds[0]] + ds[1..];
    }
  }

  /** A plain run of digits parses to its decimal value. */
  lemma ParseIntDigits(ds: string)
    requires |ds| > 0 && forall i :: 0 <= i < |ds| ==> IsDigit(ds[i])
    ensures ParseInt(ds) == Some(DigitsValue(ds))
  {
    assert !IsWhitespace(ds[0]);
    assert TrimStart(ds) == ds;
    assert ds[0] != '-' && ds[0] != '+';
    LeadingDigitsOfDigits(ds);
  }
}
