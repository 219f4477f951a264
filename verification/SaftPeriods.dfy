/**
 Dates as strings, the order the export compares them in, and the period filter (internal/saftao/dates.go, export.go).
 */
module SaftPeriods {
  import opened Text
  import opened Numerals
  import opened SaftAmounts
  import Money

  /** Go's string order, byte by byte. */
  predicate Less(a: string, b: string) {
    b != "" && (a == "" || a[0] < b[0] || (a[0] == b[0] && Less(a[1..], b[1..])))
  }

  lemma {:induction false} LessOrders(a: string, b: string)
    ensures Less(a, b) || Less(b, a) || a == b
    ensures !(Less(a, b) && Less(b, a)) && !Less(a, a)
    decreases |a| + |b|
  {
    if a != "" && b != "" {
      LessOrders(a[1..], b[1..]);
      assert a == [a[0]] + a[1..] && b == [b[0]] + b[1..];
    }
    if a != "" {
      NotLessItself(a);
    }
  }

  lemma {:induction false} NotLessItself(a: string)
    ensures !Less(a, a)
  {
    if a != "" {
      NotLessItself(a[1..]);
    }
  }

  lemma {:induction false} LessTransitive(a: string, b: string, c: string)
    requires Less(a, b) && Less(b, c)
    ensures Less(a, c)
  {
    if a != "" && a[0] == b[0] && b[0] == c[0] {
      LessTransitive(a[1..], b[1..], c[1..]);
    }
  }

  predicate Leap(year: nat) {
    (year % 4 == 0 && year % 100 != 0) || year % 400 == 0
  }

  function DaysIn(year: nat, month: nat): nat {
    if month == 2 then (if Leap(year) then 29 else 28)
    else if month == 4 || month == 6 || month == 9 || month == 11 then 30
    else 31
  }

  /** YYYY-MM-DD, and a day of the calendar. */
  predicate DateText(s: string) {
    && |s| == 10 && s[4] == '-' && s[7] == '-'
    && AllDigits(s[..4]) && AllDigits(s[5..7]) && AllDigits(s[8..])
    && 1 <= NatValue(s[5..7]) <= 12
    && 1 <= NatValue(s[8..]) <= DaysIn(NatValue(s[..4]), NatValue(s[5..7]))
  }

  /** Date.Validate trims before it looks; the comparisons below do not. */
  predicate ValidDate(s: string) {
    DateText(TrimSpace(s))
  }

  datatype Period = Period(start: string, end: string)

  predicate Within(d: string, p: Period) {
    !Less(d, p.start) && !Less(p.end, d)
  }

  /** Strictly after the first period and before the second. */
  predicate Between(d: string, p: Period, q: Period) {
    Less(p.end, d) && Less(d, q.start)
  }

  /** Two periods one after the other, inside a whole with their outer ends. */
  predicate SplitInto(whole: Period, p: Period, q: Period) {
    && whole.start == p.start && whole.end == q.end
    && !Less(p.end, p.start) && !Less(q.end, q.start) && Less(p.end, q.start)
  }

  /** A day is in the whole exactly when it is in one part or between them, and never in two of these. */
  lemma OneOfThree(d: string, whole: Period, p: Period, q: Period)
    requires SplitInto(whole, p, q)
    ensures Within(d, whole) <==> Within(d, p) || Within(d, q) || Between(d, p, q)
    ensures !(Within(d, p) && Within(d, q))
    ensures !(Within(d, p) && Between(d, p, q)) && !(Within(d, q) && Between(d, p, q))
  {
    Steps(d, p.start);
    Steps(d, p.end);
    Steps(d, q.start);
    Steps(d, q.end);
    Chained(p.start, p.end, d);
    Chained(d, q.start, q.end);
    Chained(p.end, q.start, d);
    Chained(d, p.end, q.start);
    Chained(d, p.start, p.end);
    Chained(q.start, q.end, d);
  }

  lemma Steps(a: string, b: string)
    ensures !(Less(a, b) && Less(b, a))
  {
    LessOrders(a, b);
  }

  /** At most, transitively. */
  lemma Chained(a: string, b: string, c: string)
    ensures !Less(b, a) && !Less(c, b) ==> !Less(c, a)
    ensures !Less(b, a) && Less(b, c) ==> Less(a, c)
    ensures Less(a, b) && !Less(c, b) ==> Less(a, c)
  {
    LessOrders(a, b);
    LessOrders(b, c);
    LessOrders(a, c);
    if Less(a, b) && Less(b, c) {
      LessTransitive(a, b, c);
    }
  }

  // ----- days -----

  datatype Day = Day(year: nat, month: nat, day: nat)

  predicate DayLess(a: Day, b: Day) {
    a.year < b.year || (a.year == b.year && (a.month < b.month || (a.month == b.month && a.day < b.day)))
  }

  function DayOf(s: string): Day
    requires DateText(s)
  {
    Day(NatValue(s[..4]), NatValue(s[5..7]), NatValue(s[8..]))
  }

  function NextDay(t: Day): Day {
    if t.day < DaysIn(t.year, t.month) then Day(t.year, t.month, t.day + 1)
    else if t.month < 12 then Day(t.year, t.month + 1, 1)
    else Day(t.year + 1, 1, 1)
  }

  lemma {:induction false} LessAppended(a: string, b: string, c: string, d: string)
    requires |a| == |b|
    ensures Less(a + c, b + d) <==> Less(a, b) || (a == b && Less(c, d))
  {
    if a == "" {
      assert a + c == c && b + d == d;
    } else {
      LessAppended(a[1..], b[1..], c, d);
      assert (a + c)[1..] == a[1..] + c && (b + d)[1..] == b[1..] + d;
      assert a == [a[0]] + a[1..] && b == [b[0]] + b[1..];
    }
  }

  /** Digit strings of one length are ordered as the numbers they denote. */
  lemma {:induction false} DigitsOrder(a: string, b: string)
    requires |a| == |b| && AllDigits(a) && AllDigits(b)
    ensures Less(a, b) <==> NatValue(a) < NatValue(b)
    ensures a == b <==> NatValue(a) == NatValue(b)
  {
    if a != "" {
      var n := |a| - 1;
      DigitsOrder(a[..n], b[..n]);
      LessAppended(a[..n], b[..n], [a[n]], [b[n]]);
      assert a == a[..n] + [a[n]] && b == b[..n] + [b[n]];
      assert Less([a[n]], [b[n]]) <==> a[n] < b[n];
    }
  }

  /** Date texts are ordered as the days they denote. */
  lemma DateOrder(a: string, b: string)
    requires DateText(a) && DateText(b)
    ensures Less(a, b) <==> DayLess(DayOf(a), DayOf(b))
  {
    assert a == a[..4] + ("-" + (a[5..7] + ("-" + a[8..]))) && b == b[..4] + ("-" + (b[5..7] + ("-" + b[8..])));
    LessAppended(a[..4], b[..4], "-" + (a[5..7] + ("-" + a[8..])), "-" + (b[5..7] + ("-" + b[8..])));
    LessAppended("-", "-", a[5..7] + ("-" + a[8..]), b[5..7] + ("-" + b[8..]));
    LessAppended(a[5..7], b[5..7], "-" + a[8..], "-" + b[8..]);
    LessAppended("-", "-", a[8..], b[8..]);
    NotLessItself("-");
    DigitsOrder(a[..4], b[..4]);
    DigitsOrder(a[5..7], b[5..7]);
    DigitsOrder(a[8..], b[8..]);
  }

  /** YYYY-MM-DD. */
  function TextOf(t: Day): string
    requires t.year < 10_000 && t.month < 100 && t.day < 100
  {
    assert Pow10(4) == 10_000 && Pow10(2) == 100 by { Money.Pow10Table(); }
    PadNat(t.year, 4) + "-" + PadNat(t.month, 2) + "-" + PadNat(t.day, 2)
  }

  /** A date text is the text of its day, and every day of the calendar up to the year 9999 has one. */
  lemma DateRoundTrip(s: string)
    requires DateText(s)
    ensures var t := DayOf(s); t.year < 10_000 && t.month < 100 && t.day < 100 && TextOf(t) == s
  {
    Money.Pow10Table();
    NatValuePad(s[..4]);
    NatValuePad(s[5..7]);
    NatValuePad(s[8..]);
    assert s == s[..4] + "-" + s[5..7] + "-" + s[8..];
    hide NatValue, PadNat;
  }

  lemma DayRoundTrip(t: Day)
    requires t.year < 10_000 && 1 <= t.month <= 12 && 1 <= t.day <= DaysIn(t.year, t.month)
    ensures DateText(TextOf(t)) && DayOf(TextOf(t)) == t
  {
    hide NatValue, PadNat, DaysIn, TextOf, Pow10;
    DayFits(t);
    TextParts(t);
    PadNatValue(t.year, 4);
    PadNatValue(t.month, 2);
    PadNatValue(t.day, 2);
  }

  lemma DayFits(t: Day)
    ensures DaysIn(t.year, t.month) <= 31
  {
  }

  lemma TextParts(t: Day)
    requires t.year < 10_000 && t.month < 100 && t.day < 100
    ensures Pow10(4) == 10_000 && Pow10(2) == 100
    ensures var s := TextOf(t);
            && |s| == 10 && s[4] == '-' && s[7] == '-'
            && s[..4] == PadNat(t.year, 4) && s[5..7] == PadNat(t.month, 2) && s[8..] == PadNat(t.day, 2)
  {
    Money.Pow10Table();
    hide NatValue, PadNat, Pow10;
  }

  /** The months of the Gregorian calendar. */
  lemma MonthsAre(year: nat)
    ensures forall m :: m in {1, 3, 5, 7, 8, 10, 12} ==> DaysIn(year, m) == 31
    ensures forall m :: m in {4, 6, 9, 11} ==> DaysIn(year, m) == 30
    ensures DaysIn(year, 2) == if year % 400 == 0 then 29 else if year % 100 == 0 then 28
                               else if year % 4 == 0 then 29 else 28
  {
  }

  /** A written date is in a period exactly when its day is neither before the first nor after the last. */
  lemma WithinDays(d: string, p: Period)
    requires DateText(d) && DateText(p.start) && DateText(p.end)
    ensures Within(d, p) <==>
            var day, first, last := DayOf(d), DayOf(p.start), DayOf(p.end);
            (day == first || DayLess(first, day)) && (day == last || DayLess(day, last))
  {
    DateOrder(d, p.start);
    DateOrder(p.start, d);
    DateOrder(p.end, d);
    DateOrder(d, p.end);
    hide DateText, Less, DayOf;
  }

  /** Between one day and the next there is no date - as long as it is written without blanks around it. */
  lemma NoDateBetweenDays(d: string, p: Period, q: Period)
    requires DateText(p.end) && DateText(q.start) && DayOf(q.start) == NextDay(DayOf(p.end)) && DateText(d)
    ensures !Between(d, p, q)
  {
    DateOrder(p.end, d);
    DateOrder(d, q.start);
  }

  lemma BlankTrimmed(d: string)
    requires d != "" && IsDigit(d[0]) && IsDigit(d[|d| - 1])
    ensures TrimSpace(d + " ") == d
  {
    var s := d + " ";
    assert s[0] == d[0] && s[|s| - 1] == ' ' && s[..|s| - 1] == d;
    assert TrimLeft(s) == s;
    assert TrimRight(d) == d;
    assert TrimRight(s) == TrimRight(d);
  }

  /** With a blank behind it a date passes validation and yet falls between its own day and the next. */
  lemma PaddedDateFallsBetween(p: Period, q: Period)
    requires DateText(p.end) && DateText(q.start) && DayOf(q.start) == NextDay(DayOf(p.end))
    ensures ValidDate(p.end + " ") && Between(p.end + " ", p, q)
  {
    var d := p.end;
    assert IsDigit(d[..4][0]) && IsDigit(d[8..][1]);
    TrimmedStays(d);
    BlankTrimmed(d);
    LessAppended(d, d, "", " ");
    NotLessItself(d);
    assert d + "" == d;
    DateOrder(d, q.start);
    LessAppended(d, q.start, " ", "");
    assert q.start + "" == q.start;
  }

  // ----- filtering -----

  /** The members of a list whose date is in the period, in order. */
  function Keep<T>(xs: seq<T>, date: T -> string, p: Period): seq<T> {
    if xs == [] then []
    else
      var last := xs[|xs| - 1];
      Keep(xs[..|xs| - 1], date, p) + if Within(date(last), p) then [last] else []
  }

  /** Those that fall between two periods. */
  function KeepBetween<T>(xs: seq<T>, date: T -> string, p: Period, q: Period): seq<T> {
    if xs == [] then []
    else
      var last := xs[|xs| - 1];
      KeepBetween(xs[..|xs| - 1], date, p, q) + if Between(date(last), p, q) then [last] else []
  }

  lemma {:induction false} KeepMembers<T>(xs: seq<T>, date: T -> string, p: Period)
    ensures forall x :: x in Keep(xs, date, p) <==> x in xs && Within(date(x), p)
    ensures |Keep(xs, date, p)| <= |xs|
  {
    if xs != [] {
      KeepMembers(xs[..|xs| - 1], date, p);
      assert xs == xs[..|xs| - 1] + [xs[|xs| - 1]];
    }
  }

  lemma {:induction false} BetweenMembers<T>(xs: seq<T>, date: T -> string, p: Period, q: Period)
    ensures forall x :: x in KeepBetween(xs, date, p, q) <==> x in xs && Between(date(x), p, q)
  {
    if xs != [] {
      BetweenMembers(xs[..|xs| - 1], date, p, q);
      assert xs == xs[..|xs| - 1] + [xs[|xs| - 1]];
    }
  }

  lemma BetweenMember<T>(xs: seq<T>, date: T -> string, p: Period, q: Period, x: T)
    requires x in KeepBetween(xs, date, p, q)
    ensures x in xs && Between(date(x), p, q)
  {
    BetweenMembers(xs, date, p, q);
  }

  /** Filtering what was already kept keeps all of it. */
  lemma {:induction false} KeepAgain<T>(xs: seq<T>, date: T -> string, p: Period)
    requires forall x :: x in xs ==> Within(date(x), p)
    ensures Keep(xs, date, p) == xs
  {
    if xs != [] {
      KeepAgain(xs[..|xs| - 1], date, p);
      assert xs == xs[..|xs| - 1] + [xs[|xs| - 1]];
    }
  }

  /** The amounts of all members, in order. */
  function Gather<T>(xs: seq<T>, amounts: T -> seq<string>): seq<string> {
    if xs == [] then [] else Gather(xs[..|xs| - 1], amounts) + amounts(xs[|xs| - 1])
  }

  lemma GatherAppend<T>(xs: seq<T>, x: T, amounts: T -> seq<string>)
    ensures Gather(xs + [x], amounts) == Gather(xs, amounts) + amounts(x)
    ensures Total(Gather(xs + [x], amounts)) == Total(Gather(xs, amounts)) + Total(amounts(x))
  {
    assert (xs + [x])[..|xs|] == xs;
    TotalConcat(Gather(xs, amounts), amounts(x));
  }

  lemma {:induction false} GatherConcat<T>(xs: seq<T>, ys: seq<T>, amounts: T -> seq<string>)
    ensures Gather(xs + ys, amounts) == Gather(xs, amounts) + Gather(ys, amounts)
  {
    if ys == [] {
      assert xs + ys == xs;
    } else {
      var front := ys[..|ys| - 1];
      GatherConcat(xs, front, amounts);
      assert (xs + ys)[..|xs + ys| - 1] == xs + front;
    }
  }

  lemma KeepLast<T>(xs: seq<T>, date: T -> string, p: Period)
    requires xs != []
    ensures var front, last := xs[..|xs| - 1], xs[|xs| - 1];
            Keep(xs, date, p) == if Within(date(last), p) then Keep(front, date, p) + [last] else Keep(front, date, p)
  {
  }

  lemma BetweenLast<T>(xs: seq<T>, date: T -> string, p: Period, q: Period)
    requires xs != []
    ensures var front, last := xs[..|xs| - 1], xs[|xs| - 1];
            KeepBetween(xs, date, p, q) ==
            if Between(date(last), p, q) then KeepBetween(front, date, p, q) + [last]
            else KeepBetween(front, date, p, q)
  {
  }

  /** The whole is its two parts and what falls between them: member for member. */
  lemma {:induction false} WholeIsParts<T>(xs: seq<T>, date: T -> string, whole: Period, p: Period, q: Period)
    requires SplitInto(whole, p, q)
    ensures multiset(Keep(xs, date, whole)) ==
            multiset(Keep(xs, date, p)) + multiset(Keep(xs, date, q)) + multiset(KeepBetween(xs, date, p, q))
  {
    if xs != [] {
      hide *;
      var front, last := xs[..|xs| - 1], xs[|xs| - 1];
      WholeIsParts(front, date, whole, p, q);
      OneOfThree(date(last), whole, p, q);
      KeepLast(xs, date, whole);
      KeepLast(xs, date, p);
      KeepLast(xs, date, q);
      BetweenLast(xs, date, p, q);
    }
  }

  /** And cent for cent. */
  lemma {:induction false} WholeAmounts<T>(xs: seq<T>, date: T -> string, amounts: T -> seq<string>,
                                           whole: Period, p: Period, q: Period)
    requires SplitInto(whole, p, q)
    ensures Total(Gather(Keep(xs, date, whole), amounts)) ==
            Total(Gather(Keep(xs, date, p), amounts)) + Total(Gather(Keep(xs, date, q), amounts))
            + Total(Gather(KeepBetween(xs, date, p, q), amounts))
  {
    if xs != [] {
      hide *;
      var front, last := xs[..|xs| - 1], xs[|xs| - 1];
      WholeAmounts(front, date, amounts, whole, p, q);
      OneOfThree(date(last), whole, p, q);
      KeepLast(xs, date, whole);
      KeepLast(xs, date, p);
      KeepLast(xs, date, q);
      BetweenLast(xs, date, p, q);
      GatherAppend(Keep(front, date, whole), last, amounts);
      GatherAppend(Keep(front, date, p), last, amounts);
      GatherAppend(Keep(front, date, q), last, amounts);
      GatherAppend(KeepBetween(front, date, p, q), last, amounts);
    }
  }

  /** The parts together are the whole exactly when nothing falls between them; their totals then add up to its. */
  lemma PartsAreWholeExactlyWhen<T>(xs: seq<T>, date: T -> string, amounts: T -> seq<string>,
                                    whole: Period, p: Period, q: Period)
    requires SplitInto(whole, p, q)
    ensures multiset(Keep(xs, date, p)) + multiset(Keep(xs, date, q)) == multiset(Keep(xs, date, whole)) <==>
            forall x :: x in xs ==> !Between(date(x), p, q)
    ensures (forall x :: x in xs ==> !Between(date(x), p, q)) ==>
              Total(Gather(Keep(xs, date, whole), amounts)) ==
              Total(Gather(Keep(xs, date, p), amounts)) + Total(Gather(Keep(xs, date, q), amounts))
  {
    hide *;
    WholeIsParts(xs, date, whole, p, q);
    WholeAmounts(xs, date, amounts, whole, p, q);
    BetweenMembers(xs, date, p, q);
    var lost := KeepBetween(xs, date, p, q);
    Missing(multiset(Keep(xs, date, whole)), multiset(Keep(xs, date, p)) + multiset(Keep(xs, date, q)), lost);
    if lost == [] {
      NothingGathered(amounts);
      forall x | x in xs
        ensures !Between(date(x), p, q)
      {
        assert x !in lost;
      }
    } else {
      BetweenMember(xs, date, p, q, lost[0]);
    }
  }

  lemma Missing<T>(all: multiset<T>, parts: multiset<T>, lost: seq<T>)
    requires all == parts + multiset(lost)
    ensures parts == all <==> lost == []
  {
    if lost == [] {
      assert multiset(lost) == multiset{};
    } else {
      assert lost[0] in multiset(lost);
      assert all[lost[0]] == parts[lost[0]] + multiset(lost)[lost[0]];
    }
  }

  lemma NothingGathered<T>(amounts: T -> seq<string>)
    ensures Total(Gather([], amounts)) == 0
  {
  }
}
