/**
 * The few pieces of Python's string handling that dpmData.py relies on:
 * `str(int)`, `int(str)`, `str.isspace` and `str.rstrip()`, with the narrower
 * whitespace set `int()` skips.
 */
module Text {
  import opened Wrappers

  /** CPython's `str.isspace` for one character: Unicode White_Space plus the
      separators U+001C..U+001F, whose bidirectional class is B or S. */
  predicate IsSpace(c: char)
  {
    var k := c as int;
    (0x09 <= k <= 0x0D) || (0x1C <= k <= 0x20) || k == 0x85 || k == 0xA0 ||
    k == 0x1680 || (0x2000 <= k <= 0x200A) || k == 0x2028 || k == 0x2029 ||
    k == 0x202F || k == 0x205F || k == 0x3000
  }

  predicate IsDigit(c: char)
  {
    '0' <= c <= '9'
  }

  predicate AllDigits(s: string)
  {
    forall i :: 0 <= i < |s| ==> IsDigit(s[i])
  }

  /** The two whitespace sets in play. `str.isspace` (and so `rstrip()`) uses all
      of `IsSpace`; `int()` skips only the ASCII whitespace of the C locale
      (tab, newline, vertical tab, form feed, carriage return, space) plus the
      non-ASCII Unicode whitespace, so the separators U+001C..U+001F are not
      padding to it. */
  datatype Whitespace = StrIsSpace | IntPadding

  predicate IsWhite(ws: Whitespace, c: char)
  {
    IsSpace(c) && (ws == IntPadding ==> !(0x1C <= c as int <= 0x1F))
  }

  predicate AllWhite(ws: Whitespace, s: string)
  {
    forall i :: 0 <= i < |s| ==> IsWhite(ws, s[i])
  }

  /** `s.rstrip()` over the whitespace set `ws`: the longest prefix of `s` that does
      not end in whitespace. */
  function RStrip(ws: Whitespace, s: string): (r: string)
    ensures |r| <= |s| && r == s[..|r|]
    ensures AllWhite(ws, s[|r|..])
    ensures r == [] || !IsWhite(ws, r[|r| - 1])
  {
    if s != [] && IsWhite(ws, s[|s| - 1]) then
      var r := RStrip(ws, s[..|s| - 1]);
      assert s[|r|..] == s[..|s| - 1][|r|..] + [s[|s| - 1]];
      r
    else s
  }

  /** `s.lstrip()` over the whitespace set `ws`: the longest suffix of `s` that does
      not start with whitespace. */
  function LStrip(ws: Whitespace, s: string): (r: string)
    ensures |r| <= |s| && r == s[|s| - |r|..]
    ensures AllWhite(ws, s[..|s| - |r|])
    ensures r == [] || !IsWhite(ws, r[0])
  {
    if s != [] && IsWhite(ws, s[0]) then LStrip(ws, s[1..]) else s
  }

  /** `s.strip()` over the whitespace set `ws`. */
  function Strip(ws: Whitespace, s: string): string
  {
    LStrip(ws, RStrip(ws, s))
  }

  function DigitChar(d: nat): char
    requires d < 10
  {
    "0123456789"[d]
  }

  function DigitValue(c: char): nat
    requires IsDigit(c)
  {
    (c as int) - ('0' as int)
  }

  /** `str(n)` for a natural number: its decimal digits, without leading zeros. */
  function NatToString(n: nat): (r: string)
    ensures r != [] && AllDigits(r)
    ensures |r| > 1 ==> r[0] != '0'
  {
    if n < 10 then [DigitChar(n)] else NatToString(n / 10) + [DigitChar(n % 10)]
  }

  /** `str(i)` for any integer: a minus sign before the digits of a negative number. */
  function IntToString(i: int): string
  {
    if i < 0 then "-" + NatToString(-i) else NatToString(i)
  }

  /** The value of a string of decimal digits (leading zeros allowed, as `int` allows them). */
  function DigitsValue(s: string): nat
    requires AllDigits(s)
  {
    if s == [] then 0 else DigitsValue(s[..|s| - 1]) * 10 + DigitValue(s[|s| - 1])
  }

  /** `int(s)` for a string: surrounding padding, an optional sign, then at least one digit;
      `None` where Python raises `ValueError`. */
  function ParseInt(s: string): Option<int>
  {
    ParseSigned(Strip(IntPadding, s))
  }

  /** An optional sign followed by at least one digit. */
  function ParseSigned(t: string): Option<int>
  {
    if t != [] && (t[0] == '-' || t[0] == '+') then
      var d := t[1..];
      if d != [] && AllDigits(d) then
        var v: int := DigitsValue(d);
        Some(if t[0] == '-' then -v else v)
      else None
    else if t != [] && AllDigits(t) then Some(DigitsValue(t))
    else None
  }

  lemma {:induction false} DigitsValueOfNatToString(n: nat)
    ensures DigitsValue(NatToString(n)) == n
  {
    if n >= 10 {
      var s := NatToString(n);
      assert s[..|s| - 1] == NatToString(n / 10);
      DigitsValueOfNatToString(n / 10);
    }
  }

  lemma StripUnchanged(ws: Whitespace, s: string)
    requires s != [] && !IsWhite(ws, s[0]) && !IsWhite(ws, s[|s| - 1])
    ensures Strip(ws, s) == s
  {
    assert RStrip(ws, s) == s;
  }

  lemma ParseIntOfNatToString(n: nat)
    ensures ParseInt(NatToString(n)) == Some(n)
  {
    var s := NatToString(n);
    assert IsDigit(s[0]) && IsDigit(s[|s| - 1]);
    StripUnchanged(IntPadding, s);
    DigitsValueOfNatToString(n);
  }

  lemma ParseIntOfNegative(n: nat)
    requires n > 0
    ensures ParseInt("-" + NatToString(n)) == Some(-(n as int))
  {
    var d := NatToString(n);
    var s := "-" + d;
    assert s[0] == '-' && s[1..] == d;
    assert s[|s| - 1] == d[|d| - 1] && IsDigit(d[|d| - 1]);
    StripUnchanged(IntPadding, s);
    DigitsValueOfNatToString(n);
  }

  /** `int(str(i)) == i` for every integer. */
  lemma ParseIntOfIntToString(i: int)
    ensures ParseInt(IntToString(i)) == Some(i)
  {
    if i < 0 {
      var n: nat := -i;
      assert IntToString(i) == "-" + NatToString(n);
      ParseIntOfNegative(n);
    } else {
      assert IntToString(i) == NatToString(i);
      ParseIntOfNatToString(i);
    }
  }

  /** Whitespace after text that does not end in whitespace is all `rstrip` removes. */
  lemma {:induction false} RStripTrailingSpace(ws: Whitespace, x: string, w: string)
    requires AllWhite(ws, w) && (x == [] || !IsWhite(ws, x[|x| - 1]))
    ensures RStrip(ws, x + w) == x
    decreases |w|
  {
    if w == [] {
      assert x + w == x;
    } else {
      assert AllWhite(ws, w[..|w| - 1]) by {
        assert forall i :: 0 <= i < |w| - 1 ==> w[..|w| - 1][i] == w[i];
      }
      RStripTrailingSpace(ws, x, w[..|w| - 1]);
      RStripSkip(ws, x, w);
    }
  }

  /** A trailing whitespace character of `x + w` is dropped by `rstrip`. */
  lemma RStripSkip(ws: Whitespace, x: string, w: string)
    requires w != [] && IsWhite(ws, w[|w| - 1])
    ensures RStrip(ws, x + w) == RStrip(ws, x + w[..|w| - 1])
  {
    var xw := x + w;
    assert xw[|xw| - 1] == w[|w| - 1];
    RStripDropLast(ws, xw);
    assert xw[..|xw| - 1] == x + w[..|w| - 1];
  }

  /** One step of `RStrip`: a trailing whitespace character is dropped. */
  lemma RStripDropLast(ws: Whitespace, s: string)
    requires s != [] && IsWhite(ws, s[|s| - 1])
    ensures RStrip(ws, s) == RStrip(ws, s[..|s| - 1])
  {
  }

  /** Whitespace before text that does not start with whitespace is all `lstrip` removes. */
  lemma {:induction false} LStripLeadingSpace(ws: Whitespace, w: string, x: string)
    requires AllWhite(ws, w) && (x == [] || !IsWhite(ws, x[0]))
    ensures LStrip(ws, w + x) == x
    decreases |w|
  {
    if w == [] {
      assert w + x == x;
    } else {
      assert AllWhite(ws, w[1..]) by {
        assert forall i :: 0 <= i < |w| - 1 ==> w[1..][i] == w[i + 1];
      }
      LStripLeadingSpace(ws, w[1..], x);
      LStripSkip(ws, w, x);
    }
  }

  /** A leading whitespace character of `w + x` is dropped by `lstrip`. */
  lemma LStripSkip(ws: Whitespace, w: string, x: string)
    requires w != [] && IsWhite(ws, w[0])
    ensures LStrip(ws, w + x) == LStrip(ws, w[1..] + x)
  {
    var wx := w + x;
    assert wx[0] == w[0];
    assert wx[1..] == w[1..] + x;
  }

  lemma StripPadded(ws: Whitespace, w1: string, t: string, w2: string)
    requires AllWhite(ws, w1) && AllWhite(ws, w2)
    requires t != [] && !IsWhite(ws, t[0]) && !IsWhite(ws, t[|t| - 1])
    ensures Strip(ws, w1 + t + w2) == t
  {
    RStripTrailingSpace(ws, w1 + t, w2);
    LStripLeadingSpace(ws, w1, t);
  }

  lemma ParseSignedDigits(sign: string, d: string)
    requires d != [] && AllDigits(d)
    requires sign == "" || sign == "+" || sign == "-"
    ensures ParseSigned(sign + d) == Some(if sign == "-" then -(DigitsValue(d) as int) else DigitsValue(d))
  {
    var t := sign + d;
    if sign != "" {
      assert t[0] == sign[0] && t[1..] == d;
    } else {
      assert t == d;
    }
  }

  /** `int` accepts digits with an optional sign and surrounding padding. */
  lemma ParseIntAccepts(w1: string, sign: string, d: string, w2: string)
    requires AllWhite(IntPadding, w1) && AllWhite(IntPadding, w2)
    requires d != [] && AllDigits(d)
    requires sign == "" || sign == "+" || sign == "-"
    ensures ParseInt(w1 + sign + d + w2) == Some(if sign == "-" then -(DigitsValue(d) as int) else DigitsValue(d))
  {
    var t := sign + d;
    assert t[|t| - 1] == d[|d| - 1] && IsDigit(d[|d| - 1]);
    assert IsDigit(d[0]) && t[0] == (if sign == "" then d[0] else sign[0]);
    assert w1 + sign + d + w2 == w1 + t + w2;
    StripPadded(IntPadding, w1, t, w2);
    ParseSignedDigits(sign, d);
  }

  /** What `int` accepts, conversely: the text without its surrounding padding
      is an optional sign followed by at least one digit, and the value is theirs. */
  lemma ParseIntShape(s: string)
    requires ParseInt(s).Some?
    ensures var r, t := RStrip(IntPadding, s), Strip(IntPadding, s);
      var k := |r| - |t|;
      0 <= k && k + |t| <= |s| && s[k..k + |t|] == t &&
      AllWhite(IntPadding, s[..k]) && AllWhite(IntPadding, s[k + |t|..]) &&
      t != [] &&
      ((t[0] == '-' && |t| > 1 && AllDigits(t[1..]) && ParseInt(s).value == -(DigitsValue(t[1..]) as int)) ||
       (t[0] == '+' && |t| > 1 && AllDigits(t[1..]) && ParseInt(s).value == DigitsValue(t[1..])) ||
       (AllDigits(t) && ParseInt(s).value == DigitsValue(t)))
  {
    var r, t := RStrip(IntPadding, s), Strip(IntPadding, s);
    var k := |r| - |t|;
    assert s[..k] == r[..k];
    assert s[k..k + |t|] == r[k..];
    assert s[k + |t|..] == s[|r|..];
  }

  /** The separators U+001C..U+001F are whitespace to `str.isspace` but not padding
      to `int`: digits led by one of them are rejected. */
  lemma ParseIntRejectsSeparator(c: char, d: string)
    requires 0x1C <= c as int <= 0x1F
    requires d != [] && AllDigits(d)
    ensures IsWhite(StrIsSpace, c)
    ensures ParseInt([c] + d) == None
  {
    var s := [c] + d;
    assert s[0] == c && s[|s| - 1] == d[|d| - 1] && IsDigit(d[|d| - 1]);
    StripUnchanged(IntPadding, s);
    assert !IsDigit(s[0]);
  }

  /** `str` is injective on integers. */
  lemma IntToStringInjective(i: int, j: int)
    requires IntToString(i) == IntToString(j)
    ensures i == j
  {
    ParseIntOfIntToString(i);
    ParseIntOfIntToString(j);
  }
}
