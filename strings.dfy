/** String helpers: the JavaScript string operations the core relies on. */
module Strings {
  import opened Wrappers

  /** `s.startsWith(prefix)`. */
  predicate StartsWith(s: string, prefix: string) {
    |prefix| <= |s| && s[..|prefix|] == prefix
  }

  /**
   * The characters `String.prototype.trim` removes and `parseInt` skips: tab, the line and form
   * feeds, carriage return, the space separators of Unicode (NBSP and U+1680, U+2000-U+200A,
   * U+202F, U+205F, U+3000 among them), the line and paragraph separators and the BOM.
   */
  predicate IsWhitespace(c: char) {
    c == ' ' || c == '\t' || c == '\n' || c == '\r' || c == '\U{000B}' || c == '\U{000C}'
    || c == '\U{00A0}' || c == '\U{1680}' || ('\U{2000}' <= c <= '\U{200A}')
    || c == '\U{2028}' || c == '\U{2029}' || c == '\U{202F}' || c == '\U{205F}' || c == '\U{3000}'
    || c == '\U{FEFF}'
  }

  predicate IsBlank(s: string) {
    forall i :: 0 <= i < |s| ==> IsWhitespace(s[i])
  }

  function TrimStart(s: string): (r: string)
    ensures |r| <= |s| && r == s[|s| - |r|..]
    ensures r != [] ==> !IsWhitespace(r[0])
    ensures IsBlank(s[..|s| - |r|])
  {
    if s != [] && IsWhitespace(s[0]) then
      var r := TrimStart(s[1..]);
      assert s[1..][..|s| - 1 - |r|] == s[1..|s| - |r|];
      assert IsBlank(s[..|s| - |r|]) by {
        var pre := s[..|s| - |r|];
        forall i | 0 <= i < |pre| ensures IsWhitespace(pre[i]) {
          if i > 0 {
            assert pre[i] == s[1..|s| - |r|][i - 1];
          }
        }
      }
      r
    else s
  }

  function TrimEnd(s: string): (r: string)
    ensures |r| <= |s| && r == s[..|r|]
    ensures r != [] ==> !IsWhitespace(r[|r| - 1])
    ensures IsBlank(s[|r|..])
  {
    if s != [] && IsWhitespace(s[|s| - 1]) then
      var r := TrimEnd(s[..|s| - 1]);
      assert s[..|s| - 1][|r|..] == s[|r|..|s| - 1];
      assert IsBlank(s[|r|..]) by {
        var post := s[|r|..];
        forall i | 0 <= i < |post| ensures IsWhitespace(post[i]) {
          if i < |s| - 1 - |r| {
            assert post[i] == s[|r|..|s| - 1][i];
          } else {
            assert post[i] == s[|s| - 1];
          }
        }
      }
      r
    else s
  }

  /** `s.trim()`. */
  function Trim(s: string): string {
    TrimEnd(TrimStart(s))
  }

  /** `s.trim() === ''` holds exactly for the strings made only of white space. */
  lemma TrimEmptyIffBlank(s: string)
    ensures Trim(s) == [] <==> IsBlank(s)
  {
    var t := TrimStart(s);
    if t != [] {
      assert t[0] == s[|s| - |t|];
      assert t[0..] == t;
      assert TrimEnd(t) == [] ==> IsBlank(t);
    } else {
      assert s[..|s|] == s;
    }
  }

  /** `s.toLowerCase()` on ASCII letters; other characters are kept. */
  function LowerChar(c: char): char {
    if 'A' <= c <= 'Z' then (c as int + 32) as char else c
  }

  function ToLower(s: string): (r: string)
    ensures |r| == |s|
    ensures forall i :: 0 <= i < |s| ==> r[i] == LowerChar(s[i])
  {
    seq(|s|, i requires 0 <= i < |s| => LowerChar(s[i]))
  }

  /** `s.replace(/c/g, d)` for one character. */
  function ReplaceChar(s: string, c: char, d: char): (r: string)
    ensures |r| == |s|
    ensures forall i :: 0 <= i < |s| ==> r[i] == if s[i] == c then d else s[i]
  {
    seq(|s|, i requires 0 <= i < |s| => if s[i] == c then d else s[i])
  }

  /** The index of the last occurrence of `c` in `s`, or None. */
  function LastIndexOf(s: string, c: char): (r: Option<nat>)
    ensures r.Some? ==>
              && r.value < |s| && s[r.value] == c
              && forall j :: r.value < j < |s| ==> s[j] != c
    ensures r.None? ==> forall j :: 0 <= j < |s| ==> s[j] != c
  {
    if s == [] then None
    else if s[|s| - 1] == c then Some(|s| - 1)
    else LastIndexOf(s[..|s| - 1], c)
  }

  function DigitChar(d: nat): char
    requires d < 10
  {
    "0123456789"[d]
  }

  predicate IsDigit(c: char) {
    '0' <= c <= '9'
  }

  /** The decimal text of `n`, as JavaScript prints a non-negative integer. */
  function NatToString(n: nat): (r: string)
    ensures r != []
    ensures forall i :: 0 <= i < |r| ==> IsDigit(r[i])
  {
    if n < 10 then [DigitChar(n)] else NatToString(n / 10) + [DigitChar(n % 10)]
  }

  /** Distinct numbers print differently. */
  lemma {:induction false} NatToStringInjective(n: nat, m: nat)
    requires NatToString(n) == NatToString(m)
    ensures n == m
  {
    if n < 10 && m < 10 {
      assert DigitChar(n) == NatToString(n)[0] == NatToString(m)[0] == DigitChar(m);
    } else if n >= 10 && m >= 10 {
      var a, b := NatToString(n / 10), NatToString(m / 10);
      assert NatToString(n) == a + [DigitChar(n % 10)];
      assert NatToString(m) == b + [DigitChar(m % 10)];
      assert |a| == |b|;
      assert a == NatToString(n)[..|a|] == NatToString(m)[..|b|] == b;
      assert DigitChar(n % 10) == DigitChar(m % 10);
      NatToStringInjective(n / 10, m / 10);
    }
  }

  /** Lexicographic order on character codes, which orders ISO dates as the calendar does. */
  predicate StrLe(a: string, b: string) {
    a == [] || (b != [] && (a[0] < b[0] || (a[0] == b[0] && StrLe(a[1..], b[1..]))))
  }

  lemma {:induction false} StrLeTotal(a: string, b: string)
    ensures StrLe(a, b) || StrLe(b, a)
  {
    if a != [] && b != [] && a[0] == b[0] {
      StrLeTotal(a[1..], b[1..]);
    }
  }

  lemma {:induction false} StrLeTrans(a: string, b: string, c: string)
    requires StrLe(a, b) && StrLe(b, c)
    ensures StrLe(a, c)
  {
    if a != [] && b != [] && c != [] && a[0] == b[0] && b[0] == c[0] {
      StrLeTrans(a[1..], b[1..], c[1..]);
    }
  }

  predicate IsHexDigit(c: char) {
    IsDigit(c) || 'a' <= c <= 'f' || 'A' <= c <= 'F'
  }

  /** Whether `c` is a digit of base 16 (`hex`) or base 10. */
  predicate InBase(c: char, hex: bool) {
    if hex then IsHexDigit(c) else IsDigit(c)
  }

  function DigitValue(c: char): nat
    requires IsHexDigit(c)
  {
    if IsDigit(c) then c as int - '0' as int
    else if 'a' <= c <= 'f' then c as int - 'a' as int + 10
    else c as int - 'A' as int + 10
  }

  /** The length of the longest prefix of `s` made of digits. */
  function DigitRun(s: string, hex: bool): (n: nat)
    ensures n <= |s|
    ensures forall i :: 0 <= i < n ==> InBase(s[i], hex)
    ensures n < |s| ==> !InBase(s[n], hex)
  {
    if s == [] || !InBase(s[0], hex) then 0 else 1 + DigitRun(s[1..], hex)
  }

  /** The number the digits `ds` spell in base 16 (`hex`) or base 10, most significant first. */
  function DigitsValue(ds: string, hex: bool): nat
    requires forall i :: 0 <= i < |ds| ==> InBase(ds[i], hex)
  {
    if ds == [] then 0
    else
      assert InBase(ds[|ds| - 1], hex);
      DigitsValue(ds[..|ds| - 1], hex) * (if hex then 16 else 10) + DigitValue(ds[|ds| - 1])
  }

  /** The text after one optional sign, and whether that sign was a minus. */
  function SplitSign(t: string): (bool, string) {
    if t != [] && (t[0] == '-' || t[0] == '+') then (t[0] == '-', t[1..]) else (false, t)
  }

  /** Whether a "0x" or "0X" prefix selects base 16, and the text after the prefix. */
  function SplitRadix(u: string): (bool, string) {
    if |u| >= 2 && u[0] == '0' && (u[1] == 'x' || u[1] == 'X') then (true, u[2..]) else (false, u)
  }

  /**
   * `parseInt(s)` without a radix: leading white space and one sign are skipped, a "0x" or "0X"
   * prefix selects base 16, and the longest run of digits that follows is read; `None` is NaN,
   * the answer when no digit follows.
   */
  function ParseInt(s: string): (r: Option<int>)
    ensures (forall i :: 0 <= i < |s| ==> !IsDigit(s[i])) ==> r.None?
    ensures (forall i :: 0 <= i < |s| ==> s[i] != '-') && r.Some? ==> r.value >= 0
  {
    if s != [] && IsWhitespace(s[0]) then ParseInt(s[1..]) else ParseTrimmed(s)
  }

  /** `parseInt` once the leading white space is gone. */
  function ParseTrimmed(t: string): (r: Option<int>)
    ensures (forall i :: 0 <= i < |t| ==> !IsDigit(t[i])) ==> r.None?
    ensures (forall i :: 0 <= i < |t| ==> t[i] != '-') && r.Some? ==> r.value >= 0
  {
    var (negative, u) := SplitSign(t);
    var (hex, body) := SplitRadix(u);
    var n := DigitRun(body, hex);
    if n == 0 then None
    else
      var v: int := DigitsValue(body[..n], hex);
      Some(if negative then -v else v)
  }

  /** The decimal digits of a number read back as that number. */
  lemma {:induction false} DigitsValueOfNatToString(n: nat)
    ensures DigitsValue(NatToString(n), false) == n
  {
    var s := NatToString(n);
    if n >= 10 {
      assert s[..|s| - 1] == NatToString(n / 10);
      DigitsValueOfNatToString(n / 10);
    }
  }

  /** Reading the digits of `String(n)` from its start gives `n`. */
  lemma ReadDigitsOfNatToString(n: nat)
    ensures SplitRadix(NatToString(n)) == (false, NatToString(n))
    ensures DigitRun(NatToString(n), false) == |NatToString(n)|
    ensures DigitsValue(NatToString(n)[..|NatToString(n)|], false) == n
  {
    var s := NatToString(n);
    assert s[..|s|] == s;
    assert |s| >= 2 ==> IsDigit(s[1]);
    DigitsValueOfNatToString(n);
  }

  /** `parseInt` reads back what `String(n)` prints. */
  lemma ParseIntOfNatToString(n: nat)
    ensures ParseInt(NatToString(n)) == Some(n)
  {
    var s := NatToString(n);
    assert IsDigit(s[0]);
    assert !IsWhitespace(s[0]) && s[0] != '-' && s[0] != '+';
    assert SplitSign(s) == (false, s);
    ReadDigitsOfNatToString(n);
    assert DigitRun(s, false) != 0;
  }

  /** ... and the same text after a minus sign as its negation. */
  lemma ParseIntOfNegated(n: nat)
    ensures ParseInt("-" + NatToString(n)) == Some(-(n as int))
  {
    var s := NatToString(n);
    var m := "-" + s;
    assert m[1..] == s;
    assert SplitSign(m) == (true, s);
    ReadDigitsOfNatToString(n);
  }

  /** Text with no digits after the sign and prefix is NaN, as `parseInt(null)` reads "null". */
  lemma ParseIntNaN()
    ensures ParseInt("") == None && ParseInt("null") == None && ParseInt("0x") == None
  {
    assert SplitRadix("0x").1 == [];
  }
}
