/** Decimal numerals: Python's `str(n)` and the texts `int(s)` accepts. */
module Numerals {
  import opened Common

  predicate IsDigit(c: char) { '0' <= c <= '9' }

  predicate AllDigits(s: string) { forall c :: c in s ==> IsDigit(c) }

  function DigitValue(c: char): (d: nat)
    requires IsDigit(c)
    ensures d <= 9
  {
    c as int - '0' as int
  }

  function DigitChar(d: nat): (c: char)
    requires d <= 9
    ensures IsDigit(c) && DigitValue(c) == d
  {
    ('0' as int + d) as char
  }

  /** The number a run of digits denotes, read left to right. */
  function DigitsValue(s: string): nat
    requires AllDigits(s)
  {
    if s == "" then 0 else DigitsValue(s[..|s| - 1]) * 10 + DigitValue(s[|s| - 1])
  }

  function NatText(n: nat): (s: string)
    ensures s != "" && AllDigits(s)
    ensures n > 0 ==> s[0] != '0'
  {
    if n < 10 then [DigitChar(n)] else NatText(n / 10) + [DigitChar(n % 10)]
  }

  /** `str(n)`. */
  function IntText(n: int): (s: string)
    ensures s != ""
  {
    if n < 0 then "-" + NatText(-n) else NatText(n)
  }

  lemma {:induction false} NatTextValue(n: nat)
    ensures DigitsValue(NatText(n)) == n
  {
    if n < 10 {
      assert [DigitChar(n)][..0] == "";
    } else {
      NatTextValue(n / 10);
      var s := NatText(n / 10) + [DigitChar(n % 10)];
      assert s[..|s| - 1] == NatText(n / 10);
    }
  }

  /** No superfluous leading zero. */
  lemma NatTextCanonical(n: nat)
    ensures NatText(n) == "0" || NatText(n)[0] != '0'
  {
    if n == 0 {
      assert DigitChar(0) == '0';
    }
  }

  predicate IsSpace(c: char) {
    c == ' ' || '\t' <= c <= '\r'
  }

  function TrimLeft(s: string): (r: string)
    ensures |r| <= |s|
    ensures forall c :: c in r ==> c in s
    ensures r == "" || !IsSpace(r[0])
  {
    if s != "" && IsSpace(s[0]) then TrimLeft(s[1..]) else s
  }

  function TrimRight(s: string): (r: string)
    ensures |r| <= |s|
    ensures forall c :: c in r ==> c in s
  {
    if s != "" && IsSpace(s[|s| - 1]) then TrimRight(s[..|s| - 1]) else s
  }

  /** Digits with single underscores between them, as `int` allows. */
  predicate GroupedDigits(s: string) {
    s != "" && IsDigit(s[0]) &&
    (|s| == 1 ||
     (if s[1] == '_' then GroupedDigits(s[2..]) else GroupedDigits(s[1..])))
  }

  function DropUnderscores(s: string): (r: string)
    requires GroupedDigits(s)
    ensures AllDigits(r)
    ensures AllDigits(s) ==> r == s
  {
    assert |s| > 1 ==> s[1] in s;
    if |s| == 1 then s
    else if s[1] == '_' then [s[0]] + DropUnderscores(s[2..])
    else [s[0]] + DropUnderscores(s[1..])
  }

  /** `int(s)` on ASCII text; None stands for its ValueError. */
  function ParseInt(s: string): Option<int> {
    var t := TrimRight(TrimLeft(s));
    if t != "" && (t[0] == '-' || t[0] == '+') then
      if GroupedDigits(t[1..]) then
        var n: int := DigitsValue(DropUnderscores(t[1..]));
        Some(if t[0] == '-' then -n else n)
      else None
    else if GroupedDigits(t) then Some(DigitsValue(DropUnderscores(t)))
    else None
  }

  lemma {:induction false} DigitsAreGrouped(s: string)
    requires s != "" && AllDigits(s)
    ensures GroupedDigits(s)
  {
    if |s| > 1 {
      assert s[1] in s;
      forall c | c in s[1..] ensures IsDigit(c) { assert c in s; }
      DigitsAreGrouped(s[1..]);
    }
  }

  /** `int(str(n)) == n`: a counter stored by `incr` reads back as the number it holds. */
  lemma ParseIntText(n: int)
    ensures ParseInt(IntText(n)) == Some(n)
  {
    var m: nat := if n < 0 then -n else n;
    var digits := NatText(m);
    NatTextValue(m);
    DigitsAreGrouped(digits);
    var t := IntText(n);
    assert IsDigit(digits[0]) && IsDigit(digits[|digits| - 1]);
    assert t[|t| - 1] == digits[|digits| - 1];
    NothingToTrim(t);
    if n < 0 {
      assert t[1..] == digits;
      SignedValue(t, digits);
    }
  }

  lemma SignedValue(t: string, digits: string)
    requires t == "-" + digits && GroupedDigits(digits) && AllDigits(digits)
    requires TrimRight(TrimLeft(t)) == t
    ensures var n: int := DigitsValue(digits); ParseInt(t) == Some(-n)
  {
    assert t[1..] == digits;
  }

  lemma NothingToTrim(t: string)
    requires t != "" && !IsSpace(t[0]) && !IsSpace(t[|t| - 1])
    ensures TrimRight(TrimLeft(t)) == t
  {
  }
}
