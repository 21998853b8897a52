/** Decimal text of integers, as Rust's `{}` formatting writes an `i64` or a `u8`
    (an optional `-` followed by digits without leading zeros), together with the
    parser that reads exactly that text back. */
module Decimal {
  import opened Wrappers

  /** Rust's `i64`, the type of `Duration::num_seconds`. */
  type I64 = x: int | -0x8000_0000_0000_0000 <= x < 0x8000_0000_0000_0000

  predicate IsDigit(c: char) {
    '0' <= c <= '9'
  }

  predicate AllDigits(s: string) {
    forall i :: 0 <= i < |s| ==> IsDigit(s[i])
  }

  /** A digit string as the formatter writes it: non-empty, and no leading zero
      unless the number itself is zero. */
  predicate Canonical(s: string) {
    && |s| >= 1
    && AllDigits(s)
    && (s[0] == '0' ==> |s| == 1)
  }

  function DigitChar(d: nat): (c: char)
    requires d < 10
    ensures IsDigit(c)
    ensures d == 0 <==> c == '0'
  {
    ('0' as int + d) as char
  }

  function DigitValue(c: char): (d: nat)
    requires IsDigit(c)
    ensures d < 10
    ensures DigitChar(d) == c
  {
    c as int - '0' as int
  }

  /** Digits of a natural number, most significant first. */
  function NatDigits(n: nat): (r: string)
    ensures Canonical(r)
    ensures r == "0" <==> n == 0
  {
    if n < 10 then [DigitChar(n)] else NatDigits(n / 10) + [DigitChar(n % 10)]
  }

  /** Decimal text of an integer; negative numbers carry a leading minus sign. */
  function FromInt(n: int): (r: string)
    ensures |r| >= 1
    ensures n < 0 <==> r[0] == '-'
    ensures IsDigit(r[|r| - 1])
    ensures forall i :: 0 <= i < |r| ==> IsDigit(r[i]) || (i == 0 && r[i] == '-')
  {
    if n < 0 then "-" + NatDigits(-n) else NatDigits(n)
  }

  /** Value of a digit string, read most significant digit first. */
  function DigitsValue(s: string): nat
    requires AllDigits(s)
  {
    if |s| == 0 then 0 else DigitsValue(s[..|s| - 1]) * 10 + DigitValue(s[|s| - 1])
  }

  /** Reads the text `FromInt` writes; any other text (empty, stray characters,
      leading zeros, `-0`) is refused. */
  function Parse(s: string): Option<int> {
    if |s| >= 1 && s[0] == '-' then
      var t := s[1..];
      if Canonical(t) && t != "0" then Some(-(DigitsValue(t) as int)) else None
    else if Canonical(s) then Some(DigitsValue(s))
    else None
  }

  lemma {:induction false} DigitsValueOfNatDigits(n: nat)
    ensures DigitsValue(NatDigits(n)) == n
    decreases n
  {
    if n >= 10 {
      var d := NatDigits(n);
      assert d[..|d| - 1] == NatDigits(n / 10);
      DigitsValueOfNatDigits(n / 10);
    }
  }

  lemma {:induction false} LeadingDigitPositive(s: string)
    requires Canonical(s) && s[0] != '0'
    ensures DigitsValue(s) >= 1
    decreases |s|
  {
    if |s| > 1 {
      LeadingDigitPositive(s[..|s| - 1]);
    }
  }

  lemma {:induction false} NatDigitsOfDigitsValue(s: string)
    requires Canonical(s)
    ensures NatDigits(DigitsValue(s)) == s
    decreases |s|
  {
    if |s| > 1 {
      var t := s[..|s| - 1];
      assert Canonical(t);
      LeadingDigitPositive(t);
      NatDigitsOfDigitsValue(t);
      assert s == t + [s[|s| - 1]];
    }
  }

  /** Round trip: the written text of every integer parses back to it. */
  lemma ParseOfFromInt(n: int)
    ensures Parse(FromInt(n)) == Some(n)
  {
    if n < 0 {
      DigitsValueOfNatDigits(-n);
      assert FromInt(n)[1..] == NatDigits(-n);
    } else {
      DigitsValueOfNatDigits(n);
    }
  }

  /** Whatever the parser accepts is the written text of the integer it returns. */
  lemma FromIntOfParse(s: string)
    requires Parse(s).Some?
    ensures FromInt(Parse(s).value) == s
  {
    if |s| >= 1 && s[0] == '-' {
      var t := s[1..];
      NatDigitsOfDigitsValue(t);
      LeadingDigitPositive(t);
      assert s == "-" + t;
    } else {
      NatDigitsOfDigitsValue(s);
    }
  }

  /** `Parse` reads back what `FromInt` writes, and reads nothing else:
      the text of an integer and the integer determine each other. */
  lemma ParseIffFromInt(s: string, n: int)
    ensures Parse(s) == Some(n) <==> FromInt(n) == s
  {
    if FromInt(n) == s {
      ParseOfFromInt(n);
    }
    if Parse(s) == Some(n) {
      FromIntOfParse(s);
    }
  }
}
