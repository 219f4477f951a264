/** SAF-T decimals in milli-units (internal/saftao/export.go): parsing, adding, and the text of the sum. */
module SaftQuantities {
  import opened Prelude
  import opened Text
  import opened Numerals
  import opened SaftAmounts
  import Money
  import Quantity

  // ----- what a decimal denotes -----

  function Whole(d: string): string {
    if '.' in d then d[..IndexOf(d, '.')] else d
  }

  function Fraction(d: string): string {
    if '.' in d then d[IndexOf(d, '.') + 1..] else ""
  }

  /** At most three decimals: what milli-units can hold. */
  predicate Measurable(d: string) {
    ValidDecimal(d) && |Fraction(d)| <= 3
  }

  /** The milli-units a decimal denotes, however many. */
  function Milli(d: string): nat
    requires Measurable(d)
  {
    NatValue(Whole(d)) * 1000 + NatValue(Quantity.PadRight(Fraction(d), 3))
  }

  // ----- parsing -----

  function Scale1000(whole: int, frac: int): int {
    Wrap64(Wrap64(whole * 1000) + frac)
  }

  function MilliOfParts(whole: string, fraction: string): Option<int> {
    if ParseInt64(whole).None? || |fraction| > 3 then None
    else
      match ParseInt64(Quantity.PadRight(fraction, 3))
      case None => None
      case Some(frac) => Some(Scale1000(ParseInt64(whole).value, frac))
  }

  function ParsedMilli(s: string): Option<int> {
    var parts := Split(TrimSpace(s), '.');
    if |parts| == 1 then
      match ParseInt64(parts[0])
      case None => None
      case Some(whole) => Some(Scale1000(whole, 0))
    else if |parts| == 2 then MilliOfParts(parts[0], parts[1])
    else None
  }

  method ParseDecimalMilli(s: string) returns (r: Option<int>)
    ensures r == ParsedMilli(s)
  {
    hide Split, TrimSpace, ParseInt64, Wrap64;
    var parts := Split(TrimSpace(s), '.');
    if |parts| > 2 {
      return None;
    }
    var whole := ParseInt64(parts[0]);
    if whole.None? {
      return None;
    }
    if |parts| == 1 {
      return Some(Scale1000(whole.value, 0));
    }
    var fracStr := parts[1];
    if |fracStr| > 3 {
      return None;
    }
    while |fracStr| < 3
      invariant |parts[1]| <= |fracStr| <= 3
      invariant Quantity.PadRight(fracStr, 3) == Quantity.PadRight(parts[1], 3)
    {
      fracStr := fracStr + "0";
    }
    var frac := ParseInt64(fracStr);
    r := if frac.None? then None else Some(Scale1000(whole.value, frac.value));
  }

  /** "%d" or "%d.%03d" with the trailing zeros and then a trailing point dropped. */
  function FormatMilli(n: nat): string {
    assert Pow10(3) == 1000 by { Money.Pow10Table(); }
    if n % 1000 == 0 then FormatNat(n / 1000)
    else
      Quantity.TrimRightChar(Quantity.TrimRightChar(FormatNat(n / 1000) + "." + PadNat(n % 1000, 3), '0'), '.')
  }

  function AddDecimal(a: string, b: string): Option<string> {
    if !ValidDecimal(a) || !ValidDecimal(b) then None
    else
      match (ParsedMilli(a), ParsedMilli(b))
      case (Some(ai), Some(bi)) =>
        var sum := Wrap64(ai + bi);
        if sum < 0 then None else Some(FormatMilli(sum))
      case _ => None
  }

  // ----- the laws -----

  lemma SplitDecimal(d: string)
    requires ValidDecimal(d)
    ensures TrimSpace(d) == d
    ensures Split(d, '.') == if '.' in d then [Whole(d), Fraction(d)] else [d]
    ensures Whole(d) != "" && AllDigits(Whole(d)) && AllDigits(Fraction(d))
  {
    if '.' in d {
      var i := IndexOf(d, '.');
      assert d == Whole(d) + "." + Fraction(d);
      assert d[0] == Whole(d)[0] && d[|d| - 1] == Fraction(d)[|Fraction(d)| - 1];
      Money.SplitAtPoint(Whole(d), Fraction(d));
    }
    assert IsDigit(d[0]) && IsDigit(d[|d| - 1]);
    DigitsTrimmed(d);
  }

  lemma ThreeDigits(f: string)
    requires |f| == 3 && AllDigits(f)
    ensures NatValue(f) < 1000
  {
    NatValueBound(f);
    Money.Pow10Table();
  }

  lemma NoFraction()
    ensures Quantity.PadRight("", 3) == "000" && NatValue("000") == 0
  {
    assert Quantity.PadRight("000", 3) == "000";
    assert Quantity.PadRight("00", 3) == Quantity.PadRight("00" + "0", 3) && "00" + "0" == "000";
    assert Quantity.PadRight("0", 3) == Quantity.PadRight("0" + "0", 3) && "0" + "0" == "00";
    assert Quantity.PadRight("", 3) == Quantity.PadRight("" + "0", 3) && "" + "0" == "0";
    assert "0"[..0] == "" && "00"[..1] == "0" && "000"[..2] == "00";
    assert NatValue("0") == 0;
    assert NatValue("00") == 0;
  }

  /** The parser reads what is denoted modulo 2^64, and refuses a fourth decimal or a whole part past int64. */
  lemma ParseDecimal(d: string)
    requires ValidDecimal(d)
    ensures ParsedMilli(d) ==
            if Measurable(d) && NatValue(Whole(d)) <= MAX_INT64 then Some(Wrap64(Milli(d))) else None
  {
    hide TrimSpace, Split, ParseInt64, NatValue, Wrap64, Quantity.PadRight, ValidDecimal, Whole, Fraction;
    SplitDecimal(d);
    ParseDigits(Whole(d));
    if |Fraction(d)| <= 3 {
      var padded := Quantity.PadRight(Fraction(d), 3);
      ThreeDigits(padded);
      ParseDigits(padded);
      WrapTwice(NatValue(Whole(d)) * 1000, NatValue(padded));
    }
    if '.' !in d {
      NoPoint(d);
    }
  }

  lemma NoPoint(d: string)
    requires '.' !in d
    ensures Whole(d) == d && Fraction(d) == "" && NatValue(Quantity.PadRight(Fraction(d), 3)) == 0
  {
    NoFraction();
  }

  lemma MilliFraction(n: nat) returns (f: string)
    requires n % 1000 != 0
    ensures FormatMilli(n) == FormatNat(n / 1000) + "." + f
    ensures 1 <= |f| <= 3 && AllDigits(f) && NatValue(Quantity.PadRight(f, 3)) == n % 1000
    ensures f[|f| - 1] != '0'
  {
    Money.Pow10Table();
    var x := PadNat(n % 1000, 3);
    Quantity.PadUndoesTrim(x);
    PadNatValue(n % 1000, 3);
    f := Quantity.TrimRightChar(x, '0');
    var front := FormatNat(n / 1000) + ".";
    Quantity.TrimBehindPoint(front, x);
    assert front + x == FormatNat(n / 1000) + "." + x;
    assert Quantity.TrimRightChar(front + f, '.') == front + f;
  }

  /** The text of a sum is a decimal that denotes it again. */
  lemma SumText(n: nat)
    ensures ValidDecimal(FormatMilli(n)) && Measurable(FormatMilli(n)) && Milli(FormatMilli(n)) == n
    ensures n <= MAX_INT64 ==> ParsedMilli(FormatMilli(n)) == Some(n)
  {
    var w := FormatNat(n / 1000);
    FormatNatValue(n / 1000);
    NoFraction();
    if n % 1000 == 0 {
      assert '.' !in w;
    } else {
      var f := MilliFraction(n);
      Quantity.PointPosition(w, f);
    }
    hide FormatMilli, NatValue, Quantity.PadRight;
    assert Milli(FormatMilli(n)) == n;
    ParseDecimal(FormatMilli(n));
  }

  /** And the shortest one: no superfluous zero at either end, and no point behind a whole number. */
  lemma SumTextIsShortest(n: nat)
    ensures var s := FormatMilli(n);
            && s != "" && Whole(s) == FormatNat(n / 1000) && (s[0] == '0' ==> n < 1000)
            && ('.' in s <==> n % 1000 != 0) && ('.' in s ==> s[|s| - 1] != '0')
  {
    var w := FormatNat(n / 1000);
    if n % 1000 == 0 {
      assert '.' !in w;
    } else {
      var f := MilliFraction(n);
      Quantity.PointPosition(w, f);
    }
    hide FormatNat;
  }

  /** What one addition computes, for every accumulated sum and every decimal. */
  lemma AddDecimalIs(n: nat, d: string)
    requires n <= MAX_INT64 && ValidDecimal(d)
    ensures AddDecimal(FormatMilli(n), d) ==
            if !Measurable(d) || NatValue(Whole(d)) > MAX_INT64 || Wrap64(n + Milli(d)) < 0 then None
            else Some(FormatMilli(Wrap64(n + Milli(d))))
  {
    hide FormatMilli, NatValue, Measurable, Milli, ParsedMilli, ValidDecimal, Whole, Wrap64;
    SumText(n);
    ParseDecimal(d);
    if Measurable(d) {
      WrapTwice(Milli(d), n);
    }
  }

  /** Decimals that fit int64 milli-units are added exactly; a sum that does not fit is an error. */
  lemma AddDecimalExact(n: nat, d: string)
    requires n <= MAX_INT64 && Measurable(d) && Milli(d) <= MAX_INT64
    ensures AddDecimal(FormatMilli(n), d) ==
            if n + Milli(d) <= MAX_INT64 then Some(FormatMilli(n + Milli(d))) else None
  {
    hide FormatMilli, NatValue, Milli, AddDecimal, Whole, Measurable;
    WholeFits(d);
    AddDecimalIs(n, d);
  }

  lemma WholeFits(d: string)
    requires Measurable(d)
    ensures ValidDecimal(d) && Milli(d) >= 1000 * NatValue(Whole(d))
  {
  }

  /**
   The exact condition for one addition: it fails or shows the true sum unless the milli-units overflow unnoticed by the
   parser and the sum wraps past zero.
   */
  lemma WrongQuantityExactlyWhen(n: nat, d: string)
    requires n <= MAX_INT64 && Measurable(d)
    ensures ValidDecimal(d)
    ensures (var r := AddDecimal(FormatMilli(n), d); r.Some? && r != Some(FormatMilli(n + Milli(d)))) <==>
            Milli(d) > MAX_INT64 && NatValue(Whole(d)) <= MAX_INT64 && Wrap64(n + Milli(d)) >= 0
  {
    hide FormatMilli, NatValue, Milli, AddDecimal, Whole, Measurable;
    WholeFits(d);
    AddDecimalIs(n, d);
    var sum := Wrap64(n + Milli(d));
    if sum >= 0 && sum != n + Milli(d) {
      SumText(sum);
      SumText(n + Milli(d));
    }
  }

  predicate QuantitiesFit(ds: seq<string>) {
    forall d :: d in ds ==> Measurable(d) && Milli(d) <= MAX_INT64
  }

  /** The milli-units of a list of decimals; what cannot be measured counts for nothing. */
  function TotalMilli(ds: seq<string>): nat {
    if ds == [] then 0
    else
      var last := ds[|ds| - 1];
      TotalMilli(ds[..|ds| - 1]) + if Measurable(last) then Milli(last) else 0
  }

  function AccumulateMilli(acc: string, ds: seq<string>): Option<string> {
    if ds == [] then Some(acc)
    else
      match AccumulateMilli(acc, ds[..|ds| - 1])
      case None => None
      case Some(sum) => AddDecimal(sum, ds[|ds| - 1])
  }

  /** Every decimal is one the parser takes, and no running sum from n wraps to a negative int64. */
  predicate NeverNegativeMilli(n: nat, ds: seq<string>) {
    ds == [] ||
    var last := ds[|ds| - 1];
    && NeverNegativeMilli(n, ds[..|ds| - 1])
    && Measurable(last) && NatValue(Whole(last)) <= MAX_INT64 && Wrap64(n + TotalMilli(ds)) >= 0
  }

  /** What any list of decimals comes to: a failure, or the sum of the milli-units modulo 2^64. */
  lemma {:induction false} AccumulateMilliIs(n: nat, ds: seq<string>)
    requires n <= MAX_INT64
    ensures NeverNegativeMilli(n, ds) ==> Wrap64(n + TotalMilli(ds)) >= 0
    ensures AccumulateMilli(FormatMilli(n), ds) ==
            if NeverNegativeMilli(n, ds) then Some(FormatMilli(Wrap64(n + TotalMilli(ds)))) else None
  {
    hide FormatMilli, AddDecimal, Measurable, Milli, NatValue, Whole;
    if ds != [] {
      var prefix, last := ds[..|ds| - 1], ds[|ds| - 1];
      AccumulateMilliIs(n, prefix);
      if NeverNegativeMilli(n, prefix) {
        var sum := Wrap64(n + TotalMilli(prefix));
        AddAnything(sum, last);
        if Measurable(last) {
          WrapTwice(n + TotalMilli(prefix), Milli(last));
        }
      }
    }
  }

  lemma AddAnything(n: nat, d: string)
    requires n <= MAX_INT64
    ensures AddDecimal(FormatMilli(n), d) ==
            if !Measurable(d) || NatValue(Whole(d)) > MAX_INT64 || Wrap64(n + Milli(d)) < 0 then None
            else Some(FormatMilli(Wrap64(n + Milli(d))))
  {
    if ValidDecimal(d) {
      AddDecimalIs(n, d);
    }
    hide FormatMilli, ParsedMilli, Milli, NatValue, Whole, Wrap64;
  }

  /** When exactly a list comes to a wrong total: no running sum is negative, and the true sum does not fit int64. */
  lemma WrongQuantitiesExactlyWhen(n: nat, ds: seq<string>)
    requires n <= MAX_INT64
    ensures (var r := AccumulateMilli(FormatMilli(n), ds);
             r.Some? && !(n + TotalMilli(ds) <= MAX_INT64 && r.value == FormatMilli(n + TotalMilli(ds)))) <==>
            NeverNegativeMilli(n, ds) && n + TotalMilli(ds) > MAX_INT64
  {
    hide FormatMilli, AccumulateMilli, NeverNegativeMilli, TotalMilli;
    AccumulateMilliIs(n, ds);
  }

  lemma {:induction false} FittingNeverNegativeMilli(n: nat, ds: seq<string>)
    requires n <= MAX_INT64 && QuantitiesFit(ds)
    ensures NeverNegativeMilli(n, ds) <==> n + TotalMilli(ds) <= MAX_INT64
  {
    hide Measurable, Milli, NatValue, Whole;
    if ds != [] {
      var prefix, last := ds[..|ds| - 1], ds[|ds| - 1];
      assert last in ds;
      FittingNeverNegativeMilli(n, prefix);
      WholeFits(last);
      if n + TotalMilli(prefix) <= MAX_INT64 < n + TotalMilli(ds) {
        assert Wrap64(n + TotalMilli(ds)) < 0;
      }
    }
  }

  /** After any number of lines the quantity total denotes precisely their sum, or the call has failed. */
  lemma AccumulateMilliExact(n: nat, ds: seq<string>)
    requires n <= MAX_INT64 && QuantitiesFit(ds)
    ensures AccumulateMilli(FormatMilli(n), ds) ==
            if n + TotalMilli(ds) <= MAX_INT64 then Some(FormatMilli(n + TotalMilli(ds))) else None
  {
    hide FormatMilli, AccumulateMilli, NeverNegativeMilli, TotalMilli, QuantitiesFit;
    AccumulateMilliIs(n, ds);
    FittingNeverNegativeMilli(n, ds);
  }

  /** The quantity 18446744073709552: far within int64 as a whole number, its milli-units wrap to 384. */
  function LargeQuantity(): string {
    FormatNat(18_446_744_073_709_552)
  }

  lemma LargeQuantityIs()
    ensures var d := LargeQuantity();
            Measurable(d) && NatValue(Whole(d)) <= MAX_INT64 && Milli(d) == 18_446_744_073_709_552_000
  {
    var d := LargeQuantity();
    hide FormatNat;
    FormatNatValue(18_446_744_073_709_552);
    assert '.' !in d;
    NoPoint(d);
    hide NatValue, Quantity.PadRight;
  }

  lemma LargeWraps()
    ensures Wrap64(18_446_744_073_709_552_000) == 384
  {
  }

  /** A quantity total that wraps: nothing plus that quantity comes out as 384 milli-units. */
  lemma WrappedQuantity()
    ensures Measurable(LargeQuantity()) && Milli(LargeQuantity()) > MAX_INT64
    ensures AddDecimal(FormatMilli(0), LargeQuantity()) == Some(FormatMilli(384))
    ensures AccumulateMilli(FormatMilli(0), [LargeQuantity()]) == Some(FormatMilli(384))
    ensures FormatMilli(384) != FormatMilli(Milli(LargeQuantity()))
  {
    hide LargeQuantity, FormatMilli, AddDecimal, Measurable, Milli, NatValue, Whole, ValidDecimal, Wrap64;
    LargeWraps();
    LargeQuantityIs();
    WholeFits(LargeQuantity());
    AddDecimalIs(0, LargeQuantity());
    assert [LargeQuantity()][..0] == [];
    SumText(384);
    SumText(Milli(LargeQuantity()));
  }
}
