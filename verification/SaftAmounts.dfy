/**
 SAF-T amounts (internal/saftao/money.go, export.go): decimal strings, and the accumulators that add them through int64
 cents and milli-units.
 */
module SaftAmounts {
  import opened Prelude
  import opened Text
  import opened Numerals
  import Money
  import Quantity

  // ----- the two string types -----

  /** Money2: digits, a point, exactly two digits. */
  predicate ValidMoney2(s: string) {
    |s| >= 4 && s[|s| - 3] == '.' && AllDigits(s[..|s| - 3]) && AllDigits(s[|s| - 2..])
  }

  function Major(m: string): nat
    requires ValidMoney2(m)
  {
    NatValue(m[..|m| - 3])
  }

  /** The cents a Money2 denotes, however many. */
  function Amount(m: string): nat
    requires ValidMoney2(m)
  {
    Major(m) * 100 + NatValue(m[|m| - 2..])
  }

  /** DecimalNonNeg: digits, and possibly a point and more digits. */
  predicate ValidDecimal(s: string) {
    if '.' in s then
      var i := IndexOf(s, '.');
      i > 0 && i + 1 < |s| && AllDigits(s[..i]) && AllDigits(s[i + 1..])
    else s != "" && AllDigits(s)
  }

  // ----- cents -----

  /** whole*100 + frac in int64. */
  function Scale100(whole: int, frac: int): int {
    Wrap64(Wrap64(whole * 100) + frac)
  }

  function CentsOfParts(whole: string, fraction: string): Option<int> {
    var padded := if |fraction| == 1 then fraction + "0" else fraction;
    if ParseInt64(whole).None? || |padded| > 2 || ParseInt64(padded).None? then None
    else Some(Scale100(ParseInt64(whole).value, ParseInt64(padded).value))
  }

  function ParseMoneyCents(s: string): Option<int> {
    var parts := Split(TrimSpace(s), '.');
    if |parts| == 1 then
      match ParseInt64(parts[0])
      case None => None
      case Some(whole) => Some(Scale100(whole, 0))
    else if |parts| == 2 then CentsOfParts(parts[0], parts[1])
    else None
  }

  /** The sum, as "%d.%02d"; None stands for the error. */
  function AddMoney(acc: string, m: string): Option<string> {
    if !ValidDecimal(acc) || !ValidMoney2(m) then None
    else
      match (ParseMoneyCents(acc), ParseMoneyCents(m))
      case (Some(a), Some(b)) =>
        var sum := Wrap64(a + b);
        if sum < 0 then None else Some(Money.FormatCanonical(sum))
      case _ => None
  }

  /** Storing in an int64 adds some multiple of 2^64, and only one of them fits. */
  lemma WrapShifts(x: int) returns (k: int)
    ensures Wrap64(x) == x + k * 0x1_0000_0000_0000_0000
  {
    if FitsInt64(x) {
      k := 0;
    } else {
      var m, q := x % 0x1_0000_0000_0000_0000, x / 0x1_0000_0000_0000_0000;
      k := if m <= MAX_INT64 then -q else -q - 1;
    }
  }

  lemma WrapUnique(x: int, r: int, k: int)
    requires FitsInt64(r) && r == x + k * 0x1_0000_0000_0000_0000
    ensures Wrap64(x) == r
  {
    var j := WrapShifts(x);
    assert r - Wrap64(x) == (k - j) * 0x1_0000_0000_0000_0000;
  }

  lemma WrapTwice(x: int, y: int)
    ensures Wrap64(Wrap64(x) + y) == Wrap64(x + y)
  {
    var j := WrapShifts(x);
    var k := WrapShifts(Wrap64(x) + y);
    WrapUnique(x + y, Wrap64(Wrap64(x) + y), j + k);
  }

  lemma DigitsTrimmed(s: string)
    requires s != "" && IsDigit(s[0]) && IsDigit(s[|s| - 1])
    ensures TrimSpace(s) == s
  {
    TrimmedStays(s);
  }

  lemma ParseMoney2(m: string)
    requires ValidMoney2(m)
    ensures ParseMoneyCents(m) == if Major(m) <= MAX_INT64 then Some(Wrap64(Amount(m))) else None
  {
    var w, f := m[..|m| - 3], m[|m| - 2..];
    assert m == w + "." + f;
    assert IsDigit(m[0]) && IsDigit(m[|m| - 1]);
    DigitsTrimmed(m);
    Money.SplitAtPoint(w, f);
    ParseDigits(w);
    ParseDigits(f);
    TwoDigits(f);
    hide TrimSpace, Split, ParseInt64, NatValue, Wrap64;
    WrapTwice(Major(m) * 100, NatValue(f));
  }

  lemma TwoDigits(f: string)
    requires |f| == 2 && AllDigits(f)
    ensures NatValue(f) < 100
  {
    NatValueBound(f);
    Money.Pow10Table();
  }

  /** The text of an accumulator holding a number of cents. */
  lemma AccumulatorText(a: Money.Cents)
    ensures var s := Money.FormatCanonical(a);
            ValidMoney2(s) && ValidDecimal(s) && Amount(s) == a && ParseMoneyCents(s) == Some(a)
  {
    Money.Pow10Table();
    var s := Money.FormatCanonical(a);
    var w, f := FormatNat(a / 100), PadNat(a % 100, 2);
    assert s == w + "." + f;
    assert s[..|s| - 3] == w && s[|s| - 2..] == f;
    FormatNatValue(a / 100);
    PadNatValue(a % 100, 2);
    assert Amount(s) == a;
    Quantity.PointPosition(w, f);
    ParseMoney2(s);
  }

  /**
   What one addition computes, for every accumulator and every amount: the sum modulo 2^64, if that is not negative.
   */
  lemma AddMoneyIs(a: Money.Cents, m: string)
    requires ValidMoney2(m)
    ensures AddMoney(Money.FormatCanonical(a), m) ==
            if Major(m) > MAX_INT64 || Wrap64(a + Amount(m)) < 0 then None
            else Some(Money.FormatCanonical(Wrap64(a + Amount(m))))
  {
    hide ParseMoneyCents, Money.FormatCanonical, ValidMoney2, ValidDecimal, Amount, Major, Wrap64;
    AccumulatorText(a);
    ParseMoney2(m);
    WrapTwice(Amount(m), a);
  }

  /** An addition is faithful when it either fails or shows the true sum. */
  predicate Faithful(a: Money.Cents, m: string)
    requires ValidMoney2(m)
  {
    var r := AddMoney(Money.FormatCanonical(a), m);
    r.Some? ==> a + Amount(m) <= MAX_INT64 && r.value == Money.FormatCanonical(a + Amount(m))
  }

  /** Amounts that fit int64 cents are added exactly; a sum that does not fit is an error. */
  lemma AddMoneyExact(a: Money.Cents, m: string)
    requires ValidMoney2(m) && Amount(m) <= MAX_INT64
    ensures AddMoney(Money.FormatCanonical(a), m) ==
            if a + Amount(m) <= MAX_INT64 then Some(Money.FormatCanonical(a + Amount(m))) else None
  {
    hide Money.FormatCanonical, AddMoney, ValidMoney2, Amount, Major;
    AddMoneyIs(a, m);
    MajorFits(m);
  }

  lemma MajorFits(m: string)
    requires ValidMoney2(m)
    ensures Amount(m) >= 100 * Major(m)
  {
  }

  /**
   When exactly a wrong total comes out: the cents overflow, the parser does not notice, and the sum wraps past zero.
   */
  lemma WrongTotalExactlyWhen(a: Money.Cents, m: string)
    requires ValidMoney2(m)
    ensures !Faithful(a, m) <==> Amount(m) > MAX_INT64 && Major(m) <= MAX_INT64 && Wrap64(a + Amount(m)) >= 0
  {
    hide Money.FormatCanonical, AddMoney, Amount, Major, ValidMoney2;
    AddMoneyIs(a, m);
    MajorFits(m);
    if a + Amount(m) > MAX_INT64 && Amount(m) <= MAX_INT64 {
      assert Wrap64(a + Amount(m)) < 0;
    }
  }

  /**
   The amounts that no accumulator can turn into a wrong total: those that fit int64 cents, those whose major part the
   parser itself refuses, and those whose cents wrap to the most negative int64.
   */
  lemma SafeAmounts(m: string)
    requires ValidMoney2(m)
    ensures (forall a: Money.Cents :: Faithful(a, m)) <==>
            Amount(m) <= MAX_INT64 || Major(m) > MAX_INT64 || Wrap64(Amount(m)) == -MAX_INT64 - 1
  {
    hide Faithful, Amount, Major, ValidMoney2;
    if Amount(m) <= MAX_INT64 || Major(m) > MAX_INT64 || Wrap64(Amount(m)) == -MAX_INT64 - 1 {
      forall a: Money.Cents
        ensures Faithful(a, m)
      {
        WrongTotalExactlyWhen(a, m);
        WrapTwice(Amount(m), a);
      }
    } else {
      var a: Money.Cents := if Wrap64(Amount(m)) >= 0 then 0 else MAX_INT64;
      WrongTotalExactlyWhen(a, m);
      WrapTwice(Amount(m), a);
      assert !Faithful(a, m);
    }
  }

  /** The amount 92233720368547758.99: its major part is within a hundredth of the int64 range, its cents are not. */
  function LargeAmount(): string {
    FormatNat(92_233_720_368_547_758) + "." + "99"
  }

  lemma LargeAmountIs()
    ensures var m := LargeAmount();
            ValidMoney2(m) && Major(m) == MAX_INT64 / 100 && Amount(m) == 9_223_372_036_854_775_899
  {
    hide FormatNat;
    var w := FormatNat(92_233_720_368_547_758);
    var m := LargeAmount();
    FormatNatValue(92_233_720_368_547_758);
    assert m[..|m| - 3] == w && m[|m| - 2..] == "99";
    assert NatValue("9") == 9;
    assert "99"[..1] == "9";
    assert NatValue("99") == 99;
  }

  /** A total that wraps: the largest accumulator plus that amount comes out as ninety cents. */
  lemma WrappedTotal()
    ensures AddMoney(Money.FormatCanonical(MAX_INT64), LargeAmount()) == Some(Money.FormatCanonical(90))
    ensures ValidMoney2(LargeAmount()) && !Faithful(MAX_INT64, LargeAmount())
  {
    hide LargeAmount, Money.FormatCanonical, AddMoney, ValidMoney2, Amount, Major;
    LargeAmountIs();
    AddMoneyIs(MAX_INT64, LargeAmount());
  }

  // ----- many amounts -----

  predicate AmountsFit(ms: seq<string>) {
    forall m :: m in ms ==> ValidMoney2(m) && Amount(m) <= MAX_INT64
  }

  /** The cents of a list of amounts; what is no amount counts for nothing. */
  function Total(ms: seq<string>): nat {
    if ms == [] then 0
    else
      var last := ms[|ms| - 1];
      Total(ms[..|ms| - 1]) + if ValidMoney2(last) then Amount(last) else 0
  }

  /** The accumulator after a list of amounts, starting from one. */
  function Accumulate(acc: string, ms: seq<string>): Option<string> {
    if ms == [] then Some(acc)
    else
      match Accumulate(acc, ms[..|ms| - 1])
      case None => None
      case Some(sum) => AddMoney(sum, ms[|ms| - 1])
  }

  /** Every amount is one the parser takes, and no running sum from `a` wraps to a negative int64. */
  predicate NeverNegative(a: Money.Cents, ms: seq<string>) {
    ms == [] ||
    var last := ms[|ms| - 1];
    NeverNegative(a, ms[..|ms| - 1]) && ValidMoney2(last) && Major(last) <= MAX_INT64 && Wrap64(a + Total(ms)) >= 0
  }

  /**
   What any list of amounts comes to: the call fails exactly when an amount is not taken or a running sum wraps to a
   negative number, and otherwise shows the sum of the cents modulo 2^64.
   */
  lemma {:induction false} AccumulateIs(a: Money.Cents, ms: seq<string>)
    ensures NeverNegative(a, ms) ==> Wrap64(a + Total(ms)) >= 0
    ensures Accumulate(Money.FormatCanonical(a), ms) ==
            if NeverNegative(a, ms) then Some(Money.FormatCanonical(Wrap64(a + Total(ms)))) else None
  {
    hide Money.FormatCanonical, AddMoney, ValidMoney2, Amount, Major;
    if ms != [] {
      var prefix, last := ms[..|ms| - 1], ms[|ms| - 1];
      AccumulateIs(a, prefix);
      if NeverNegative(a, prefix) {
        var sum := Wrap64(a + Total(prefix));
        if ValidMoney2(last) {
          AddMoneyIs(sum, last);
          WrapTwice(a + Total(prefix), Amount(last));
        } else {
          NotAnAmount(Money.FormatCanonical(sum), last);
        }
      }
    }
  }

  lemma NotAnAmount(acc: string, m: string)
    requires !ValidMoney2(m)
    ensures AddMoney(acc, m) == None
  {
  }

  /** A list is added faithfully when the call fails or shows the true sum. */
  predicate FaithfulList(a: Money.Cents, ms: seq<string>) {
    var r := Accumulate(Money.FormatCanonical(a), ms);
    r.Some? ==> a + Total(ms) <= MAX_INT64 && r.value == Money.FormatCanonical(a + Total(ms))
  }

  /** When exactly a list comes to a wrong total: no running sum is negative, and the true sum does not fit int64. */
  lemma WrongListExactlyWhen(a: Money.Cents, ms: seq<string>)
    ensures !FaithfulList(a, ms) <==> NeverNegative(a, ms) && a + Total(ms) > MAX_INT64
  {
    hide Money.FormatCanonical, Accumulate, NeverNegative, Total;
    AccumulateIs(a, ms);
  }

  /** Amounts that fit keep the running sums from going negative exactly as long as they fit together. */
  lemma {:induction false} FittingNeverNegative(a: Money.Cents, ms: seq<string>)
    requires AmountsFit(ms)
    ensures NeverNegative(a, ms) <==> a + Total(ms) <= MAX_INT64
  {
    hide ValidMoney2, Amount, Major;
    if ms != [] {
      var prefix, last := ms[..|ms| - 1], ms[|ms| - 1];
      assert last in ms;
      FittingNeverNegative(a, prefix);
      MajorFits(last);
      if a + Total(prefix) <= MAX_INT64 < a + Total(ms) {
        assert Wrap64(a + Total(ms)) < 0;
      }
    }
  }

  /** Conversely a true total, one that fits, is made of amounts that do. */
  lemma {:induction false} SmallTotalFits(a: Money.Cents, ms: seq<string>)
    requires NeverNegative(a, ms) && Total(ms) <= MAX_INT64
    ensures AmountsFit(ms)
  {
    hide ValidMoney2, Amount, Major;
    if ms != [] {
      var prefix, last := ms[..|ms| - 1], ms[|ms| - 1];
      SmallTotalFits(a, prefix);
      assert ms == prefix + [last];
    }
  }

  /** After any number of lines the accumulator denotes precisely the sum of their cents, or the call has failed. */
  lemma AccumulateExact(a: Money.Cents, ms: seq<string>)
    requires AmountsFit(ms)
    ensures Accumulate(Money.FormatCanonical(a), ms) ==
            if a + Total(ms) <= MAX_INT64 then Some(Money.FormatCanonical(a + Total(ms))) else None
  {
    hide Money.FormatCanonical, Accumulate, NeverNegative, AmountsFit, Total;
    AccumulateIs(a, ms);
    FittingNeverNegative(a, ms);
  }

  lemma {:induction false} TotalConcat(a: seq<string>, b: seq<string>)
    ensures Total(a + b) == Total(a) + Total(b)
  {
    if b == [] {
      assert a + b == a;
    } else {
      TotalConcat(a, b[..|b| - 1]);
      assert (a + b)[..|a + b| - 1] == a + b[..|b| - 1];
    }
  }

  lemma {:induction false} AccumulateConcat(acc: string, a: seq<string>, b: seq<string>)
    ensures Accumulate(acc, a + b) ==
            if Accumulate(acc, a).None? then None else Accumulate(Accumulate(acc, a).value, b)
  {
    if b == [] {
      assert a + b == a;
    } else {
      AccumulateConcat(acc, a, b[..|b| - 1]);
      assert (a + b)[..|a + b| - 1] == a + b[..|b| - 1];
    }
  }
}
