/** Monetary amounts in cents and their canonical text form (internal/money). */
module Money {
  import opened Prelude
  import opened Text
  import opened Numerals

  /** Sixteen digits of major units is the most the canonical form can show. */
  const CENTS_LIMIT := 1_000_000_000_000_000_000

  /** A non-negative int64, all the package's unexported field can hold. */
  type Cents = c: int | 0 <= c <= MAX_INT64

  datatype Error = Invalid | Overflow

  /** The accepted language: a major part of one to sixteen digits without a superfluous zero, a point, two digits. */
  predicate Canonical(s: string) {
    && 4 <= |s| <= 19
    && s[|s| - 3] == '.'
    && AllDigits(s[..|s| - 3])
    && AllDigits(s[|s| - 2..])
    && (s[0] != '0' || |s| == 4)
  }

  function ParseCanonical(s: string): Result<Cents, Error> {
    if !Canonical(s) then Err(Invalid) else ParseParts(Split(s, '.'))
  }

  function ParseParts(parts: seq<string>): Result<Cents, Error> {
    if |parts| != 2 then Err(Invalid)
    else
      match (ParseInt64(parts[0]), ParseInt64(parts[1]))
      case (Some(major), Some(frac)) =>
        if major > MAX_INT64 / 100 then Err(Overflow)
        else
          var cents := Wrap64(major * 100 + frac);
          if cents < 0 then Err(Overflow) else Ok(cents)
      case _ => Err(Invalid)
  }

  /** "%d.%02d". */
  function Render(major: nat, frac: nat): (s: string)
    requires frac < Pow10(2)
    ensures |s| >= 4 && s[..|s| - 3] == FormatNat(major) && s[|s| - 2..] == PadNat(frac, 2)
    ensures s[|s| - 3] == '.'
  {
    FormatNat(major) + "." + PadNat(frac, 2)
  }

  function FormatCanonical(a: Cents): string {
    assert Pow10(2) == 100;
    Render(a / 100, a % 100)
  }

  lemma SplitAtPoint(major: string, frac: string)
    requires AllDigits(major) && AllDigits(frac)
    ensures Split(major + "." + frac, '.') == [major, frac]
  {
    assert '.' !in major && '.' !in frac;
    SplitFirst(major, frac, '.');
  }

  lemma Pow10Table()
    ensures Pow10(1) == 10 && Pow10(2) == 100 && Pow10(3) == 1000 && Pow10(4) == 10_000
    ensures Pow10(8) == 100_000_000 && Pow10(12) == 1_000_000_000_000
    ensures Pow10(16) == 10_000_000_000_000_000
  {
    assert Pow10(4) == 10 * Pow10(3) == 100 * Pow10(2);
    assert Pow10(8) == 10 * Pow10(7) == 100 * Pow10(6) == 1000 * Pow10(5);
    assert Pow10(12) == 10 * Pow10(11) == 100 * Pow10(10) == 1000 * Pow10(9);
    assert Pow10(16) == 10 * Pow10(15) == 100 * Pow10(14) == 1000 * Pow10(13);
  }

  /** A canonical string is the text of two numbers within bounds. */
  lemma CanonicalParts(s: string) returns (major: nat, frac: nat)
    requires Canonical(s)
    ensures major < 10_000_000_000_000_000 && frac < Pow10(2) == 100 && s == Render(major, frac)
  {
    var m, f := s[..|s| - 3], s[|s| - 2..];
    major, frac := NatValue(m), NatValue(f);
    assert s == m + "." + f;
    assert FormatNat(major) == m by { NatValueFormat(m); }
    assert frac < Pow10(2) && PadNat(frac, 2) == f by { NatValuePad(f); }
    assert major < 10_000_000_000_000_000 by {
      FormatNatLength(major, 16);
      Pow10Table();
    }
  }

  lemma ParseRendered(major: nat, frac: nat)
    requires frac < Pow10(2)
    ensures Canonical(Render(major, frac)) <==> major < 10_000_000_000_000_000
    ensures ParseCanonical(Render(major, frac)) ==
            if major < 10_000_000_000_000_000 then Ok(major * 100 + frac) else Err(Invalid)
  {
    var m, f := FormatNat(major), PadNat(frac, 2);
    assert |m| <= 16 <==> major < 10_000_000_000_000_000 by {
      FormatNatLength(major, 16);
      Pow10Table();
    }
    assert Canonical(Render(major, frac)) <==> |m| <= 16;
    SplitAtPoint(m, f);
    if major < 10_000_000_000_000_000 {
      ParseFormatNat(major);
      ParsePadNat(frac, 2);
      PartsValue(m, f, major, frac);
    }
  }

  lemma PartsValue(m: string, f: string, major: nat, frac: nat)
    requires ParseInt64(m) == Some(major) && ParseInt64(f) == Some(frac)
    requires major < 10_000_000_000_000_000 && frac < 100
    ensures ParseParts([m, f]) == Ok(major * 100 + frac)
  {
  }

  lemma FormatOfCents(major: nat, frac: nat)
    requires frac < Pow10(2) && major < 10_000_000_000_000_000
    ensures Pow10(2) == 100 && FormatCanonical(major * 100 + frac) == Render(major, frac)
  {
    var a := major * 100 + frac;
    assert a / 100 == major && a % 100 == frac;
  }

  lemma AcceptedAmount(s: string) returns (a: Cents)
    requires Canonical(s)
    ensures a < CENTS_LIMIT && ParseCanonical(s) == Ok(a) && FormatCanonical(a) == s
  {
    hide Canonical, ParseCanonical, FormatCanonical, Render, FormatNat, PadNat, NatValue, Pow10;
    var major, frac := CanonicalParts(s);
    ParseRendered(major, frac);
    FormatOfCents(major, frac);
    a := major * 100 + frac;
  }

  /** Formatting what was parsed gives back the very string; everything else is refused. */
  lemma FormatAfterParse(s: string)
    ensures ParseCanonical(s).Ok? <==> Canonical(s)
    ensures ParseCanonical(s).Ok? ==> FormatCanonical(ParseCanonical(s).value) == s
  {
    if Canonical(s) {
      var a := AcceptedAmount(s);
    }
  }

  /** Parsing what was formatted gives back the amount exactly below 10^18 cents; larger amounts are refused. */
  lemma ParseAfterFormat(a: Cents)
    ensures ParseCanonical(FormatCanonical(a)) == if a < CENTS_LIMIT then Ok(a) else Err(Invalid)
  {
    assert Pow10(2) == 100;
    ParseRendered(a / 100, a % 100);
  }

  lemma RenderInjective(m: nat, f: nat, n: nat, g: nat)
    requires f < Pow10(2) && g < Pow10(2) && Render(m, f) == Render(n, g)
    ensures m == n && f == g
  {
    FormatNatValue(m);
    FormatNatValue(n);
    PadNatValue(f, 2);
    PadNatValue(g, 2);
  }

  /** Two amounts with the same text are the same amount, over the whole int64 range. */
  lemma FormatInjective(a: Cents, b: Cents)
    requires FormatCanonical(a) == FormatCanonical(b)
    ensures a == b
  {
    assert Pow10(2) == 100;
    RenderInjective(a / 100, a % 100, b / 100, b % 100);
  }
}
