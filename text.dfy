/**
 * The string operations the serializer fields rely on: Python's `str.strip()`
 * (with no argument, so it removes the characters `str.isspace()` accepts) and
 * `str()` of an integer.
 */
module Text {

  /** Python's `str.isspace()` on one character. */
  predicate IsSpace(c: char) {
    || c == ' ' || c == '\t' || c == '\n' || c == '\r' || c == '\U{0b}' || c == '\U{0c}'
    || ('\U{1c}' <= c <= '\U{1f}')
    || c == '\U{85}' || c == '\U{a0}' || c == '\U{1680}'
    || ('\U{2000}' <= c <= '\U{200a}')
    || c == '\U{2028}' || c == '\U{2029}' || c == '\U{202f}' || c == '\U{205f}' || c == '\U{3000}'
  }

  /** Neither end of `s` is a whitespace character. */
  predicate Stripped(s: string) {
    s == [] || (!IsSpace(s[0]) && !IsSpace(s[|s| - 1]))
  }

  predicate AllSpace(s: string) {
    forall i :: 0 <= i < |s| ==> IsSpace(s[i])
  }

  /** `s` with its leading whitespace removed. */
  function TrimStart(s: string): (r: string)
    ensures |r| <= |s|
    ensures r == [] || !IsSpace(r[0])
  {
    if s != [] && IsSpace(s[0]) then TrimStart(s[1..]) else s
  }

  /** `s` with its trailing whitespace removed. */
  function TrimEnd(s: string): (r: string)
    ensures |r| <= |s|
    ensures r == [] || !IsSpace(r[|r| - 1])
  {
    if s != [] && IsSpace(s[|s| - 1]) then TrimEnd(s[..|s| - 1]) else s
  }

  /** `TrimStart(s)` is a suffix of `s`, and what it cuts off is whitespace. */
  lemma {:induction false} TrimStartSlice(s: string)
    ensures var r := TrimStart(s); r == s[|s| - |r|..] && AllSpace(s[..|s| - |r|])
  {
    if s != [] && IsSpace(s[0]) {
      TrimStartSlice(s[1..]);
      var r := TrimStart(s);
      assert s[..|s| - |r|] == [s[0]] + s[1..][..|s| - 1 - |r|];
    }
  }

  /** `TrimEnd(s)` is a prefix of `s`, and what it cuts off is whitespace. */
  lemma {:induction false} TrimEndSlice(s: string)
    ensures var r := TrimEnd(s); r == s[..|r|] && AllSpace(s[|r|..])
  {
    if s != [] && IsSpace(s[|s| - 1]) {
      var p := s[..|s| - 1];
      TrimEndSlice(p);
      var r := TrimEnd(s);
      assert s[|r|..] == p[|r|..] + [s[|s| - 1]];
    }
  }

  /** `r` is `s` with the whitespace-only prefix `s[..a]` and a whitespace-only suffix cut off. */
  predicate TrimmedAt(s: string, r: string, a: nat) {
    && a <= |s| - |r| && r == s[a..a + |r|]
    && AllSpace(s[..a]) && AllSpace(s[a + |r|..])
  }

  /** Python's `s.strip()`. */
  function Strip(s: string): (r: string)
    ensures Stripped(r)
    ensures |r| <= |s|
  {
    var t := TrimStart(s);
    TrimEndSlice(t);
    TrimEnd(t)
  }

  /** `Strip(s)` is a slice of `s` with only whitespace outside it. */
  lemma StripSlice(s: string)
    ensures TrimmedAt(s, Strip(s), |s| - |TrimStart(s)|)
  {
    var t := TrimStart(s);
    var r := TrimEnd(t);
    var a := |s| - |t|;
    TrimStartSlice(s);
    TrimEndSlice(t);
    assert r == s[a..a + |r|];
    assert s[a + |r|..] == t[|r|..];
  }

  function DigitChar(d: nat): (c: char)
    requires d < 10
    ensures '0' <= c <= '9' && c as int - '0' as int == d
  {
    ('0' as int + d) as char
  }

  /** The number a string of decimal digits denotes, most significant first. */
  function DecimalValue(s: string): int {
    if s == [] then 0 else 10 * DecimalValue(s[..|s| - 1]) + (s[|s| - 1] as int - '0' as int)
  }

  /** The decimal digits of `n`, most significant first. */
  function NatToDecimal(n: nat): (r: string)
    ensures r != []
    ensures forall i :: 0 <= i < |r| ==> '0' <= r[i] <= '9'
    ensures r[0] == '0' <==> n == 0
    ensures n == 0 ==> r == "0"
  {
    if n < 10 then [DigitChar(n)] else NatToDecimal(n / 10) + [DigitChar(n % 10)]
  }

  /** Reading the digits of `n` back as a decimal number gives `n`. */
  lemma {:induction false} NatToDecimalValue(n: nat)
    ensures DecimalValue(NatToDecimal(n)) == n
  {
    if n >= 10 {
      var s := NatToDecimal(n / 10);
      NatToDecimalValue(n / 10);
      assert (s + [DigitChar(n % 10)])[..|s|] == s;
    }
  }

  /** Python's `str(n)` for an integer `n`: a minus sign exactly for a negative
      number, then the decimal digits of its magnitude, with no leading zero. */
  function IntToDecimal(n: int): (r: string)
    ensures r != [] && Stripped(r)
    ensures r[0] == '-' <==> n < 0
    ensures forall i :: 0 < i < |r| ==> '0' <= r[i] <= '9'
    ensures r[0] == '0' <==> n == 0
  {
    if n < 0 then "-" + NatToDecimal(-n) else NatToDecimal(n)
  }

  /** The text of `n` denotes `n`: after the minus sign of a negative number, or
      from the first character otherwise, it is the decimal digits of `|n|`. */
  lemma IntToDecimalValue(n: int)
    ensures var r := IntToDecimal(n);
            && (n >= 0 ==> '0' <= r[0] <= '9' && DecimalValue(r) == n)
            && (n < 0 ==> DecimalValue(r[1..]) == -n)
  {
    if n < 0 {
      NatToDecimalValue(-n);
      assert IntToDecimal(n)[1..] == NatToDecimal(-n);
    } else {
      NatToDecimalValue(n);
    }
  }

  /** A string that is already stripped is left as it is by `Strip`. */
  lemma StripStripped(s: string)
    requires Stripped(s)
    ensures Strip(s) == s
  {
    assert TrimStart(s) == s;
  }

  /** A character that is not whitespace occurs in `Strip(s)` exactly when it occurs in `s`. */
  lemma StripKeeps(s: string, c: char)
    requires !IsSpace(c)
    ensures c in Strip(s) <==> c in s
  {
    var r, a := Strip(s), |s| - |TrimStart(s)|;
    StripSlice(s);
    if c in s {
      var i :| 0 <= i < |s| && s[i] == c;
      assert r[i - a] == c;
    }
  }

  /** `Strip(s)` is empty exactly when `s` is all whitespace. */
  lemma StripEmpty(s: string)
    ensures Strip(s) == [] <==> AllSpace(s)
  {
    var r, a := Strip(s), |s| - |TrimStart(s)|;
    StripSlice(s);
    if r == [] {
      forall i | 0 <= i < |s| ensures IsSpace(s[i]) {
        if i < a { assert s[..a][i] == s[i]; } else { assert s[a..][i - a] == s[i]; }
      }
    } else {
      assert !IsSpace(r[0]) && r[0] == s[a];
    }
  }
}
