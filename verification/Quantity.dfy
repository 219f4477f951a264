/** Quantities in ten-thousandths and their canonical text form (internal/quantity). */
module Quantity {
  import opened Prelude
  import opened Text
  import opened Numerals
  import Money

  const SCALE := 4
  /** Twelve digits of major units and four of fraction is the most the canonical form can show. */
  const SCALED_LIMIT := 10_000_000_000_000_000

  /** What the package's unexported int64 field can hold: its zero value, or a positive number. */
  type Scaled = q: int | 0 <= q <= MAX_INT64

  datatype Error = Invalid | Overflow

  predicate CanonicalMajor(m: string) {
    1 <= |m| <= 12 && AllDigits(m) && m[0] != '0'
  }

  predicate CanonicalFraction(f: string) {
    1 <= |f| <= SCALE && AllDigits(f) && f[|f| - 1] != '0'
  }

  /** The accepted language: no superfluous zero at either end, and not zero. */
  predicate Canonical(s: string) {
    if '.' in s then
      var i := IndexOf(s, '.');
      (s[..i] == "0" || CanonicalMajor(s[..i])) && CanonicalFraction(s[i + 1..])
    else CanonicalMajor(s)
  }

  /** Zeros appended up to `width` digits. */
  function PadRight(f: string, width: nat): (s: string)
    requires |f| <= width
    ensures |s| == width
    ensures AllDigits(f) ==> AllDigits(s)
    decreases width - |f|
  {
    if |f| == width then f else PadRight(f + "0", width)
  }

  /** strings.TrimRight with a one-character cutset. */
  function TrimRightChar(s: string, c: char): string {
    if s != "" && s[|s| - 1] == c then TrimRightChar(s[..|s| - 1], c) else s
  }

  /** The number a major part and a fraction denote, with the parser's range checks. */
  function Combine(major: string, fraction: string): Result<Scaled, Error> {
    if |fraction| > SCALE then Err(Invalid) else CombinePadded(major, PadRight(fraction, SCALE))
  }

  function CombinePadded(major: string, padded: string): Result<Scaled, Error> {
    match (ParseInt64(major), ParseInt64(padded))
    case (Some(whole), Some(frac)) =>
      if whole > MAX_INT64 / 10_000 then Err(Overflow)
      else
        var scaled := Wrap64(whole * 10_000 + frac);
        if scaled <= 0 then Err(Invalid) else Ok(scaled)
    case _ => Err(Invalid)
  }

  function Parsed(s: string): Result<Scaled, Error> {
    if !Canonical(s) then Err(Invalid)
    else if '.' in s then
      var i := IndexOf(s, '.');
      Combine(s[..i], s[i + 1..])
    else Combine(s, "")
  }

  /** ParseCanonical: pads the fraction digit by digit, then combines. */
  method ParseCanonical(s: string) returns (r: Result<Scaled, Error>)
    ensures r == Parsed(s)
  {
    if !Canonical(s) {
      return Err(Invalid);
    }
    var major, fracDigits := s, "";
    if '.' in s {
      var i := IndexOf(s, '.');
      major, fracDigits := s[..i], s[i + 1..];
    }
    if |fracDigits| > SCALE {
      return Err(Invalid);
    }
    ghost var given := fracDigits;
    while |fracDigits| < SCALE
      invariant |given| <= |fracDigits| <= SCALE
      invariant PadRight(fracDigits, SCALE) == PadRight(given, SCALE)
    {
      fracDigits := fracDigits + "0";
    }
    var whole, frac := ParseInt64(major), ParseInt64(fracDigits);
    if whole == None || frac == None {
      return Err(Invalid);
    }
    if whole.value > MAX_INT64 / 10_000 {
      return Err(Overflow);
    }
    var scaled := Wrap64(whole.value * 10_000 + frac.value);
    r := if scaled <= 0 then Err(Invalid) else Ok(scaled);
  }

  /** "%d.%04d" with trailing zeros dropped. */
  function Render(major: nat, frac: nat): string
    requires frac < Pow10(4)
  {
    if frac == 0 then FormatNat(major)
    else TrimRightChar(TrimRightChar(FormatNat(major) + "." + PadNat(frac, 4), '0'), '.')
  }

  function FormatCanonical(q: Scaled): string {
    assert Pow10(4) == 10_000 by { Money.Pow10Table(); }
    Render(q / 10_000, q % 10_000)
  }

  lemma {:induction false} PadUndoesTrim(x: string)
    requires AllDigits(x)
    ensures var f := TrimRightChar(x, '0');
            |f| <= |x| && AllDigits(f) && PadRight(f, |x|) == x && (f == "" || f[|f| - 1] != '0')
    ensures TrimRightChar(x, '0') == "" ==> NatValue(x) == 0
  {
    if x != "" && x[|x| - 1] == '0' {
      var y := x[..|x| - 1];
      PadUndoesTrim(y);
      PadOneMore(TrimRightChar(y, '0'), |y|);
      assert x == y + "0";
    }
  }

  lemma {:induction false} PadOneMore(f: string, width: nat)
    requires |f| <= width
    ensures PadRight(f, width + 1) == PadRight(f, width) + "0"
    decreases width - |f|
  {
    if |f| < width {
      PadOneMore(f + "0", width);
    }
  }

  lemma {:induction false} TrimUndoesPad(f: string, width: nat)
    requires |f| <= width && f != "" && f[|f| - 1] != '0'
    ensures TrimRightChar(PadRight(f, width), '0') == f
    decreases width - |f|
  {
    if |f| < width {
      TrimUndoesPad(f, width - 1);
      PadOneMore(f, width - 1);
      var p := PadRight(f, width - 1);
      assert (p + "0")[..|p + "0"| - 1] == p;
    }
  }

  lemma {:induction false} TrimBehindPoint(front: string, x: string)
    requires TrimRightChar(x, '0') != ""
    ensures TrimRightChar(front + x, '0') == front + TrimRightChar(x, '0')
  {
    if x[|x| - 1] == '0' {
      var y := x[..|x| - 1];
      TrimBehindPoint(front, y);
      assert (front + x)[..|front + x| - 1] == front + y;
    }
  }

  /** The canonical fraction of a non-zero number of ten-thousandths. */
  lemma RenderedFraction(major: nat, frac: nat) returns (f: string)
    requires 0 < frac < Pow10(4)
    ensures CanonicalFraction(f) && PadRight(f, 4) == PadNat(frac, 4)
    ensures Render(major, frac) == FormatNat(major) + "." + f
  {
    var x := PadNat(frac, 4);
    PadUndoesTrim(x);
    PadNatValue(frac, 4);
    f := TrimRightChar(x, '0');
    var front := FormatNat(major) + ".";
    TrimBehindPoint(front, x);
    assert TrimRightChar(front + f, '.') == front + f;
  }

  lemma PointPosition(m: string, f: string)
    requires AllDigits(m)
    ensures var s := m + "." + f; '.' in s && IndexOf(s, '.') == |m| && s[..|m|] == m && s[|m| + 1..] == f
  {
    var s := m + "." + f;
    assert s[|m|] == '.';
    assert '.' !in m;
  }

  lemma CombineValue(major: string, padded: string, whole: nat, frac: nat)
    requires ParseInt64(major) == Some(whole) && ParseInt64(padded) == Some(frac)
    requires whole < 1_000_000_000_000 && frac < 10_000
    ensures CombinePadded(major, padded) ==
            if whole == 0 && frac == 0 then Err(Invalid) else Ok(whole * 10_000 + frac)
  {
  }

  lemma MajorBound(major: nat)
    ensures |FormatNat(major)| <= 12 <==> major < 1_000_000_000_000
  {
    FormatNatLength(major, 12);
    Money.Pow10Table();
  }

  lemma ParseWhole(major: nat)
    ensures '.' !in FormatNat(major)
    ensures Parsed(FormatNat(major)) ==
            if 0 < major < 1_000_000_000_000 then Ok(major * 10_000) else Err(Invalid)
  {
    var m := FormatNat(major);
    MajorBound(major);
    if 0 < major < 1_000_000_000_000 {
      ParseFormatNat(major);
      var z := PadRight("", 4);
      assert z == PadNat(0, 4) by {
        assert PadRight("0000", 4) == "0000" && PadRight("000", 4) == "0000" && PadRight("00", 4) == "0000";
        assert PadNat(0, 1) == "0" && PadNat(0, 2) == "00" && PadNat(0, 3) == "000";
      }
      ParsePadNat(0, 4);
      CombineValue(m, z, major, 0);
    }
  }

  lemma ParseFractional(major: nat, frac: nat)
    requires 0 < frac < Pow10(4)
    ensures Parsed(Render(major, frac)) ==
            if major < 1_000_000_000_000 then Ok(major * 10_000 + frac) else Err(Invalid)
  {
    var f := RenderedFraction(major, frac);
    var m := FormatNat(major);
    PointPosition(m, f);
    MajorBound(major);
    if major < 1_000_000_000_000 {
      assert frac < 10_000 by { Money.Pow10Table(); }
      ParseFormatNat(major);
      ParsePadNat(frac, 4);
      CombineValue(m, PadNat(frac, 4), major, frac);
    }
  }

  lemma ParseRendered(major: nat, frac: nat)
    requires frac < Pow10(4)
    ensures Parsed(Render(major, frac)) ==
            if major < 1_000_000_000_000 && (major > 0 || frac > 0) then Ok(major * 10_000 + frac) else Err(Invalid)
  {
    if frac == 0 {
      ParseWhole(major);
    } else {
      ParseFractional(major, frac);
    }
  }

  /** Parsing what was formatted gives back the quantity exactly when it is positive and below 10^16. */
  lemma ParseAfterFormat(q: Scaled)
    ensures Parsed(FormatCanonical(q)) == if 0 < q < SCALED_LIMIT then Ok(q) else Err(Invalid)
  {
    var major, frac := q / 10_000, q % 10_000;
    assert Pow10(4) == 10_000 by { Money.Pow10Table(); }
    assert q == major * 10_000 + frac;
    assert FormatCanonical(q) == Render(major, frac);
    ParseRendered(major, frac);
  }

  /** The number behind a canonical fraction, and its rendering after a major part. */
  lemma FractionNumber(major: nat, f: string) returns (frac: nat)
    requires CanonicalFraction(f)
    ensures 0 < frac < Pow10(4) && Render(major, frac) == FormatNat(major) + "." + f
  {
    var x := PadRight(f, 4);
    frac := NatValue(x);
    assert frac < Pow10(4) && PadNat(frac, 4) == x by { NatValuePad(x); }
    assert TrimRightChar(x, '0') == f by { TrimUndoesPad(f, 4); }
    assert frac > 0 by { NonZeroFraction(f, 4); }
    var front := FormatNat(major) + ".";
    assert TrimRightChar(front + x, '0') == front + f by { TrimBehindPoint(front, x); }
    assert TrimRightChar(front + f, '.') == front + f;
  }

  lemma MajorNumber(m: string) returns (major: nat)
    requires m == "0" || CanonicalMajor(m)
    ensures FormatNat(major) == m && major < 1_000_000_000_000 && (m != "0" ==> major > 0)
  {
    major := NatValue(m);
    NatValueFormat(m);
    MajorBound(major);
  }

  /** A canonical string is the rendering of two numbers within bounds. */
  lemma CanonicalParts(s: string) returns (major: nat, frac: nat)
    requires Canonical(s)
    ensures major < 1_000_000_000_000 && frac < Pow10(4) && (major > 0 || frac > 0) && s == Render(major, frac)
  {
    if '.' in s {
      var i := IndexOf(s, '.');
      major := MajorNumber(s[..i]);
      frac := FractionNumber(major, s[i + 1..]);
      assert s == s[..i] + "." + s[i + 1..];
    } else {
      major := MajorNumber(s);
      frac := 0;
    }
  }

  lemma {:induction false} NonZeroFraction(f: string, width: nat)
    requires |f| <= width && CanonicalFraction(f)
    ensures NatValue(PadRight(f, width)) > 0
  {
    if |f| < width {
      NonZeroFraction(f, width - 1);
      PadOneMore(f, width - 1);
      var p := PadRight(f, width - 1);
      assert (p + "0")[..|p + "0"| - 1] == p;
    } else {
      assert NatValue(f) >= DigitValue(f[|f| - 1]) > 0;
    }
  }

  lemma AcceptedQuantity(s: string) returns (q: Scaled)
    requires Canonical(s)
    ensures 0 < q < SCALED_LIMIT && Parsed(s) == Ok(q) && FormatCanonical(q) == s
  {
    var major, frac := CanonicalParts(s);
    ParseRendered(major, frac);
    FormatOfParts(major, frac);
    q := major * 10_000 + frac;
  }

  lemma FormatOfParts(major: nat, frac: nat)
    requires frac < Pow10(4) && major < 1_000_000_000_000
    ensures Pow10(4) == 10_000 && FormatCanonical(major * 10_000 + frac) == Render(major, frac)
  {
    assert Pow10(4) == 10_000 by { Money.Pow10Table(); }
    var q := major * 10_000 + frac;
    assert q / 10_000 == major && q % 10_000 == frac;
  }

  /** Formatting what was parsed gives back the very string; everything else is refused. */
  lemma FormatAfterParse(s: string)
    ensures Parsed(s).Ok? <==> Canonical(s)
    ensures Parsed(s).Ok? ==> 0 < Parsed(s).value && FormatCanonical(Parsed(s).value) == s
  {
    if Canonical(s) {
      var q := AcceptedQuantity(s);
    }
  }

  function MajorOf(s: string): string {
    if '.' in s then s[..IndexOf(s, '.')] else s
  }

  function FractionOf(s: string): string {
    if '.' in s then s[IndexOf(s, '.') + 1..] else ""
  }

  /** An accepted text denotes its quantity: whole units and decimals, in ten-thousandths. */
  lemma ParsedMeans(s: string)
    requires Canonical(s)
    ensures Parsed(s).Ok?
    ensures var major, fraction := MajorOf(s), FractionOf(s);
            && AllDigits(major) && AllDigits(fraction) && |fraction| <= 4
            && Parsed(s).value == NatValue(major) * 10_000 + NatValue(fraction) * Pow10(4 - |fraction|)
  {
    var major, padded := MajorOf(s), PadRight(FractionOf(s), 4);
    assert Parsed(s) == CombinePadded(major, padded) && 1 <= |major| <= 12 && AllDigits(major);
    PaddedValue(FractionOf(s), 4);
    FormatAfterParse(s);
    Pow10Grows(|major|, 12);
    Money.Pow10Table();
    NatValueBound(major);
    NatValueBound(padded);
    ParseDigits(major);
    ParseDigits(padded);
    hide *;
    CombineValue(major, padded, NatValue(major), NatValue(padded));
  }

  lemma PowNext(k: nat)
    requires k > 0
    ensures Pow10(k) == 10 * Pow10(k - 1)
  {
  }

  lemma TenTimes(x: nat, p: nat)
    ensures 10 * x * p == x * (10 * p)
  {
  }

  lemma ZeroBehind(f: string)
    requires AllDigits(f)
    ensures AllDigits(f + "0") && NatValue(f + "0") == 10 * NatValue(f)
  {
    assert (f + "0")[..|f|] == f;
  }

  /** Every zero appended multiplies by ten. */
  lemma {:induction false} PaddedValue(f: string, width: nat)
    requires AllDigits(f) && |f| <= width
    ensures NatValue(PadRight(f, width)) == NatValue(f) * Pow10(width - |f|)
    decreases width - |f|
  {
    if |f| < width {
      ZeroBehind(f);
      PaddedValue(f + "0", width);
      assert PadRight(f, width) == PadRight(f + "0", width);
      PowNext(width - |f|);
      hide *;
      TenTimes(NatValue(f), Pow10(width - |f| - 1));
    }
  }

  lemma RenderInjective(m: nat, f: nat, n: nat, g: nat)
    requires f < Pow10(4) && g < Pow10(4) && Render(m, f) == Render(n, g)
    ensures m == n && f == g
  {
    FormatNatValue(m);
    FormatNatValue(n);
    var s := Render(m, f);
    assert '.' !in FormatNat(m) && '.' !in FormatNat(n);
    if f > 0 {
      var x := RenderedFraction(m, f);
      PointPosition(FormatNat(m), x);
    }
    if g > 0 {
      var y := RenderedFraction(n, g);
      PointPosition(FormatNat(n), y);
    }
    PadNatValue(f, 4);
    PadNatValue(g, 4);
  }

  /** Two quantities with the same text are the same quantity, zero value included. */
  lemma FormatInjective(a: Scaled, b: Scaled)
    requires FormatCanonical(a) == FormatCanonical(b)
    ensures a == b
  {
    assert Pow10(4) == 10_000 by { Money.Pow10Table(); }
    RenderInjective(a / 10_000, a % 10_000, b / 10_000, b % 10_000);
  }
}
