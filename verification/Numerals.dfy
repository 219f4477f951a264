/** Decimal numerals: formatting and parsing of integers, and the laws connecting them. */
module Numerals {
  import opened Prelude

  predicate IsDigit(c: char) {
    '0' <= c <= '9'
  }

  predicate AllDigits(s: string) {
    forall i :: 0 <= i < |s| ==> IsDigit(s[i])
  }

  function DigitChar(d: nat): (c: char)
    requires d < 10
    ensures IsDigit(c) && DigitValue(c) == d
  {
    ('0' as int + d) as char
  }

  function DigitValue(c: char): (d: nat)
    requires IsDigit(c)
    ensures d < 10 && ('0' as int + d) as char == c
  {
    c as int - '0' as int
  }

  /** Shortest decimal form of a natural number. */
  function FormatNat(n: nat): (s: string)
    ensures |s| >= 1 && AllDigits(s)
    ensures n > 0 ==> s[0] != '0'
    ensures n == 0 ==> s == "0"
  {
    if n < 10 then [DigitChar(n)] else FormatNat(n / 10) + [DigitChar(n % 10)]
  }

  /** strconv.Itoa. */
  function FormatInt(n: int): string {
    if n < 0 then "-" + FormatNat(-n) else FormatNat(n)
  }

  /** The number a string of digits denotes; leading zeros allowed. */
  function NatValue(s: string): nat
    requires AllDigits(s)
  {
    if s == "" then 0 else 10 * NatValue(s[..|s| - 1]) + DigitValue(s[|s| - 1])
  }

  /** strconv.ParseInt(s, 10, 64): an optional sign, digits, and a 64-bit range check. */
  function ParseInt64(s: string): Option<int> {
    if s == "" then None
    else
      var negative := s[0] == '-';
      var digits := if negative || s[0] == '+' then s[1..] else s;
      if digits == "" || !AllDigits(digits) then None
      else
        var magnitude: int := NatValue(digits);
        var value := if negative then -magnitude else magnitude;
        if -MAX_INT64 - 1 <= value <= MAX_INT64 then Some(value) else None
  }

  lemma {:induction false} FormatNatValue(n: nat)
    ensures NatValue(FormatNat(n)) == n
  {
    if n >= 10 {
      FormatNatValue(n / 10);
      assert FormatNat(n)[..|FormatNat(n)| - 1] == FormatNat(n / 10);
    }
  }

  /** A numeral without superfluous zeros is the one the formatter produces. */
  lemma {:induction false} NatValueFormat(s: string)
    requires AllDigits(s) && s != "" && (s[0] != '0' || |s| == 1)
    ensures FormatNat(NatValue(s)) == s
    ensures s[0] != '0' ==> NatValue(s) > 0
  {
    var front, last := s[..|s| - 1], s[|s| - 1];
    if |s| == 1 {
      assert front == "";
      assert NatValue(s) == DigitValue(last);
      assert s == [last];
    } else {
      NatValueFormat(front);
      assert NatValue(s) / 10 == NatValue(front) && NatValue(s) % 10 == DigitValue(last);
      assert s == front + [last];
    }
  }

  lemma FormatIntInjective(a: int, b: int)
    requires FormatInt(a) == FormatInt(b)
    ensures a == b
  {
    FormatNatValue(if a < 0 then -a else a);
    FormatNatValue(if b < 0 then -b else b);
    if a < 0 {
      assert FormatInt(a)[0] == '-' && FormatInt(a)[1..] == FormatNat(-a);
    }
    if b < 0 {
      assert FormatInt(b)[0] == '-' && FormatInt(b)[1..] == FormatNat(-b);
    }
  }

  function Pow10(k: nat): (p: nat)
    ensures p >= 1
  {
    if k == 0 then 1 else 10 * Pow10(k - 1)
  }

  /** k digits denote a number below ten to the k; a numeral below ten to the k has at most k digits. */
  lemma {:induction false} NatValueBound(s: string)
    requires AllDigits(s)
    ensures NatValue(s) < Pow10(|s|)
  {
    if s != "" {
      NatValueBound(s[..|s| - 1]);
    }
  }

  lemma {:induction false} FormatNatLength(n: nat, k: nat)
    requires k >= 1
    ensures |FormatNat(n)| <= k <==> n < Pow10(k)
  {
    if n < 10 {
      Pow10Grows(1, k);
    } else if k == 1 {
      assert Pow10(1) == 10 * Pow10(0);
    } else {
      FormatNatLength(n / 10, k - 1);
    }
  }

  lemma {:induction false} Pow10Grows(j: nat, k: nat)
    requires j <= k
    ensures Pow10(j) <= Pow10(k)
  {
    if j < k {
      Pow10Grows(j, k - 1);
    }
  }

  /** Exactly `width` digits, padded with leading zeros. */
  function PadNat(n: nat, width: nat): (s: string)
    requires n < Pow10(width)
    ensures |s| == width && AllDigits(s)
  {
    if width == 0 then "" else PadNat(n / 10, width - 1) + [DigitChar(n % 10)]
  }

  lemma {:induction false} PadNatValue(n: nat, width: nat)
    requires n < Pow10(width)
    ensures NatValue(PadNat(n, width)) == n
  {
    if width > 0 {
      PadNatValue(n / 10, width - 1);
      assert PadNat(n, width)[..width - 1] == PadNat(n / 10, width - 1);
    }
  }

  lemma {:induction false} NatValuePad(s: string)
    requires AllDigits(s)
    ensures NatValue(s) < Pow10(|s|) && PadNat(NatValue(s), |s|) == s
  {
    NatValueBound(s);
    if s != "" {
      NatValuePad(s[..|s| - 1]);
      assert s == s[..|s| - 1] + [s[|s| - 1]];
    }
  }

  /** Digit strings that fit are read back by the 64-bit parser as the number they denote. */
  lemma ParseDigits(s: string)
    requires AllDigits(s) && s != ""
    ensures ParseInt64(s) == if NatValue(s) <= MAX_INT64 then Some(NatValue(s)) else None
  {
    assert IsDigit(s[0]);
  }

  lemma ParseFormatNat(n: nat)
    ensures ParseInt64(FormatNat(n)) == if n <= MAX_INT64 then Some(n) else None
  {
    FormatNatValue(n);
    ParseDigits(FormatNat(n));
  }

  lemma ParsePadNat(n: nat, width: nat)
    requires width >= 1 && n < Pow10(width) && n <= MAX_INT64
    ensures ParseInt64(PadNat(n, width)) == Some(n)
  {
    PadNatValue(n, width);
    ParseDigits(PadNat(n, width));
  }
}
