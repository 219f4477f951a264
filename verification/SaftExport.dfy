/**
 The period filter of an incremental export with its running totals (internal/saftao/export.go). Invoices, payments and
 work documents go through the same loop; the transactions of a journal through its twin.
 */
module SaftExport {
  import opened Prelude
  import opened SaftAmounts
  import opened SaftPeriods
  import Money

  datatype ExportError =
    | BadDate(index: nat) | TypeNotAllowed | Malformed(index: nat) | BadSum
    | InJournal(journal: nat, error: ExportError) | JournalMalformed(journal: nat) | EntriesMalformed

  /**
   What the loop looks at in a document: its date, whether its type is allowed and its structure sound, its amounts.
   */
  datatype View<!T> = View(date: T -> string, allowed: T -> bool, sound: T -> bool,
                           debits: T -> seq<string>, credits: T -> seq<string>)

  datatype Selection<T> = Selection(items: seq<T>, totalDebit: string, totalCredit: string)

  /** One more document. */
  function Step<T>(sel: Selection<T>, x: T, i: nat, v: View<T>, p: Period): Result<Selection<T>, ExportError> {
    if !ValidDate(v.date(x)) then Err(BadDate(i))
    else if !Within(v.date(x), p) then Ok(sel)
    else if !v.allowed(x) then Err(TypeNotAllowed)
    else if !v.sound(x) then Err(Malformed(i))
    else
      var debit, credit := Accumulate(sel.totalDebit, v.debits(x)), Accumulate(sel.totalCredit, v.credits(x));
      if debit.None? || credit.None? then Err(BadSum)
      else Ok(Selection(sel.items + [x], debit.value, credit.value))
  }

  /** The loop over a list, from a given state. */
  function Select<T>(xs: seq<T>, v: View<T>, p: Period, from: Selection<T>): Result<Selection<T>, ExportError> {
    if xs == [] then Ok(from)
    else
      match Select(xs[..|xs| - 1], v, p, from)
      case Err(e) => Err(e)
      case Ok(sel) => Step(sel, xs[|xs| - 1], |xs| - 1, v, p)
  }

  /** "0.00". */
  function Zero(): string {
    Money.FormatCanonical(0)
  }

  /** Nothing selected yet. */
  function Start<T>(): Selection<T> {
    Selection([], Zero(), Zero())
  }

  // ----- the loop itself, for documents whose lines carry a debit, a credit, or both -----

  datatype AmountLine = AmountLine(debit: Option<string>, credit: Option<string>)
  datatype Document = Document(date: string, kind: string, lines: seq<AmountLine>, content: nat)

  function Listed(amount: Option<string>): seq<string> {
    match amount
    case None => []
    case Some(m) => [m]
  }

  function DebitsOf(lines: seq<AmountLine>): seq<string> {
    if lines == [] then [] else DebitsOf(lines[..|lines| - 1]) + Listed(lines[|lines| - 1].debit)
  }

  function CreditsOf(lines: seq<AmountLine>): seq<string> {
    if lines == [] then [] else CreditsOf(lines[..|lines| - 1]) + Listed(lines[|lines| - 1].credit)
  }

  /** The types the configuration allows, and the structural check. */
  datatype Rules = Rules(allowed: set<string>, sound: Document -> bool)

  function ViewOf(rules: Rules): View<Document> {
    View((d: Document) => d.date, (d: Document) => d.kind in rules.allowed, rules.sound,
         (d: Document) => DebitsOf(d.lines), (d: Document) => CreditsOf(d.lines))
  }

  lemma AccumulateOne(acc: string, front: seq<string>, amount: Option<string>)
    requires Accumulate(acc, front).Some?
    ensures Accumulate(acc, front + Listed(amount)) ==
            if amount.None? then Accumulate(acc, front) else AddMoney(Accumulate(acc, front).value, amount.value)
  {
    if amount.None? {
      assert front + Listed(amount) == front;
    } else {
      assert (front + [amount.value])[..|front|] == front;
    }
  }

  /** The two totals after the lines of a document. */
  method AddLines(lines: seq<AmountLine>, debit: string, credit: string) returns (r: Option<(string, string)>)
    ensures var d, c := Accumulate(debit, DebitsOf(lines)), Accumulate(credit, CreditsOf(lines));
            r == if d.None? || c.None? then None else Some((d.value, c.value))
  {
    var totalDebit, totalCredit := debit, credit;
    for i := 0 to |lines|
      invariant Accumulate(debit, DebitsOf(lines[..i])) == Some(totalDebit)
      invariant Accumulate(credit, CreditsOf(lines[..i])) == Some(totalCredit)
    {
      hide Accumulate, AddMoney;
      var ln := lines[i];
      assert lines[..i + 1][..i] == lines[..i];
      AccumulateOne(debit, DebitsOf(lines[..i]), ln.debit);
      AccumulateOne(credit, CreditsOf(lines[..i]), ln.credit);
      if ln.debit.Some? {
        var sum := AddMoney(totalDebit, ln.debit.value);
        if sum.None? {
          FailsForGood(debit, lines, i + 1, true);
          return None;
        }
        totalDebit := sum.value;
      }
      if ln.credit.Some? {
        var sum := AddMoney(totalCredit, ln.credit.value);
        if sum.None? {
          FailsForGood(credit, lines, i + 1, false);
          return None;
        }
        totalCredit := sum.value;
      }
    }
    assert lines[..|lines|] == lines;
    r := Some((totalDebit, totalCredit));
  }

  /** An accumulator that failed on the first lines fails on all of them. */
  lemma {:induction false} FailsForGood(acc: string, lines: seq<AmountLine>, n: nat, debit: bool)
    requires n <= |lines|
    requires Accumulate(acc, if debit then DebitsOf(lines[..n]) else CreditsOf(lines[..n])) == None
    ensures Accumulate(acc, if debit then DebitsOf(lines) else CreditsOf(lines)) == None
    decreases |lines|
  {
    if n == |lines| {
      assert lines[..n] == lines;
    } else {
      var front, last := lines[..|lines| - 1], lines[|lines| - 1];
      assert front[..n] == lines[..n];
      FailsForGood(acc, front, n, debit);
      if debit {
        AccumulateConcat(acc, DebitsOf(front), Listed(last.debit));
      } else {
        AccumulateConcat(acc, CreditsOf(front), Listed(last.credit));
      }
    }
  }

  /** The filter and total loop over invoices, payments or work documents. */
  method FilterDocuments(documents: seq<Document>, p: Period, rules: Rules)
    returns (r: Result<Selection<Document>, ExportError>)
    ensures r == Select(documents, ViewOf(rules), p, Start())
  {
    var v := ViewOf(rules);
    var filtered: seq<Document> := [];
    var totalDebit, totalCredit := Zero(), Zero();
    for i := 0 to |documents|
      invariant Select(documents[..i], v, p, Start()) == Ok(Selection(filtered, totalDebit, totalCredit))
    {
      hide Accumulate, AddMoney, ValidDate, Within, Zero;
      var d := documents[i];
      assert documents[..i + 1][..i] == documents[..i];
      if !ValidDate(d.date) {
        r := Err(BadDate(i));
        SelectFailsForGood(documents, i + 1, v, p, Start(), r.error);
        return;
      }
      if Within(d.date, p) {
        if d.kind !in rules.allowed {
          r := Err(TypeNotAllowed);
          SelectFailsForGood(documents, i + 1, v, p, Start(), r.error);
          return;
        }
        if !rules.sound(d) {
          r := Err(Malformed(i));
          SelectFailsForGood(documents, i + 1, v, p, Start(), r.error);
          return;
        }
        var sums := AddLines(d.lines, totalDebit, totalCredit);
        if sums.None? {
          r := Err(BadSum);
          SelectFailsForGood(documents, i + 1, v, p, Start(), r.error);
          return;
        }
        filtered := filtered + [d];
        totalDebit, totalCredit := sums.value.0, sums.value.1;
      }
    }
    assert documents[..|documents|] == documents;
    r := Ok(Selection(filtered, totalDebit, totalCredit));
  }

  lemma {:induction false} SelectFailsForGood<T>(xs: seq<T>, n: nat, v: View<T>, p: Period, from: Selection<T>,
                                                 e: ExportError)
    requires n <= |xs| && Select(xs[..n], v, p, from) == Err(e)
    ensures Select(xs, v, p, from) == Err(e)
    decreases |xs|
  {
    if n == |xs| {
      assert xs[..n] == xs;
    } else {
      assert xs[..|xs| - 1][..n] == xs[..n];
      SelectFailsForGood(xs[..|xs| - 1], n, v, p, from, e);
    }
  }

  // ----- what is selected -----

  /** The checks a list has to pass: every date valid, everything in the period allowed and sound. */
  ghost predicate Selectable<T>(xs: seq<T>, v: View<T>, p: Period) {
    forall x :: x in xs ==> ValidDate(v.date(x)) && (Within(v.date(x), p) ==> v.allowed(x) && v.sound(x))
  }

  lemma {:induction false} SelectableFront<T>(xs: seq<T>, v: View<T>, p: Period)
    requires xs != []
    ensures var front, last := xs[..|xs| - 1], xs[|xs| - 1];
            Selectable(xs, v, p) <==>
            && Selectable(front, v, p) && ValidDate(v.date(last))
            && (Within(v.date(last), p) ==> v.allowed(last) && v.sound(last))
  {
    assert xs == xs[..|xs| - 1] + [xs[|xs| - 1]];
  }

  /** What the kept documents add to a state. */
  function Totalled<T>(xs: seq<T>, v: View<T>, p: Period, from: Selection<T>): Option<Selection<T>> {
    var kept := Keep(xs, v.date, p);
    var debit := Accumulate(from.totalDebit, Gather(kept, v.debits));
    var credit := Accumulate(from.totalCredit, Gather(kept, v.credits));
    if debit.None? || credit.None? then None else Some(Selection(from.items + kept, debit.value, credit.value))
  }

  /**
   The filter succeeds exactly when every date is valid, everything in the period is allowed and sound, and the amounts
   kept add up; it then selects exactly what lies in the period, in order, with the totals of those amounts.
   */
  lemma {:induction false} SelectionIs<T>(xs: seq<T>, v: View<T>, p: Period, from: Selection<T>)
    ensures Select(xs, v, p, from).Ok? <==> Selectable(xs, v, p) && Totalled(xs, v, p, from).Some?
    ensures Select(xs, v, p, from).Ok? ==> Some(Select(xs, v, p, from).value) == Totalled(xs, v, p, from)
  {
    hide Accumulate, Selectable, ValidDate, Within, Keep, Gather;
    if xs == [] {
      NothingSelected(xs, v, p, from);
    } else {
      var front, last := xs[..|xs| - 1], xs[|xs| - 1];
      SelectionIs(front, v, p, from);
      SelectableFront(xs, v, p);
      assert front + [last] == xs;
      TotalledLast(front, last, v, p, from);
    }
  }

  lemma NothingSelected<T>(xs: seq<T>, v: View<T>, p: Period, from: Selection<T>)
    requires xs == []
    ensures Selectable(xs, v, p) && Totalled(xs, v, p, from) == Some(from)
  {
    assert from.items + Keep(xs, v.date, p) == from.items;
  }

  lemma TotalledLast<T>(front: seq<T>, last: T, v: View<T>, p: Period, from: Selection<T>)
    ensures var before, after := Totalled(front, v, p, from), Totalled(front + [last], v, p, from);
            if !Within(v.date(last), p) then after == before
            else if before.None? then after == None
            else
              var sel := before.value;
              var debit := Accumulate(sel.totalDebit, v.debits(last));
              var credit := Accumulate(sel.totalCredit, v.credits(last));
              after == if debit.None? || credit.None? then None
                       else Some(Selection(sel.items + [last], debit.value, credit.value))
  {
    var xs := front + [last];
    assert xs[..|xs| - 1] == front;
    KeepLast(xs, v.date, p);
    var kept := Keep(front, v.date, p);
    GatherAppend(kept, last, v.debits);
    GatherAppend(kept, last, v.credits);
    AccumulateConcat(from.totalDebit, Gather(kept, v.debits), v.debits(last));
    AccumulateConcat(from.totalCredit, Gather(kept, v.credits), v.credits(last));
    assert from.items + kept + [last] == from.items + (kept + [last]);
    hide Accumulate, Within, Keep, Gather;
  }

  /** All amounts kept are amounts, and fit int64 cents. */
  ghost predicate Fits<T>(xs: seq<T>, v: View<T>, p: Period) {
    && AmountsFit(Gather(Keep(xs, v.date, p), v.debits))
    && AmountsFit(Gather(Keep(xs, v.date, p), v.credits))
  }

  function DebitTotal<T>(xs: seq<T>, v: View<T>, p: Period): nat {
    Total(Gather(Keep(xs, v.date, p), v.debits))
  }

  function CreditTotal<T>(xs: seq<T>, v: View<T>, p: Period): nat {
    Total(Gather(Keep(xs, v.date, p), v.credits))
  }

  /** The amounts kept on each side are all taken, and no running sum of either side wraps to a negative number. */
  predicate Summable<T>(xs: seq<T>, v: View<T>, p: Period) {
    && NeverNegative(0, Gather(Keep(xs, v.date, p), v.debits))
    && NeverNegative(0, Gather(Keep(xs, v.date, p), v.credits))
  }

  /** The text of a number of cents held in an int64. */
  function Shown(total: nat): string
    requires Wrap64(total) >= 0
  {
    Money.FormatCanonical(Wrap64(total))
  }

  /** The filter succeeds exactly on summable amounts; its totals are then the sums of the cents modulo 2^64. */
  lemma TotalsAre<T>(xs: seq<T>, v: View<T>, p: Period)
    ensures Summable(xs, v, p) ==> Wrap64(DebitTotal(xs, v, p)) >= 0 && Wrap64(CreditTotal(xs, v, p)) >= 0
    ensures Select(xs, v, p, Start()).Ok? <==> Selectable(xs, v, p) && Summable(xs, v, p)
    ensures Select(xs, v, p, Start()).Ok? ==>
              Select(xs, v, p, Start()).value ==
              Selection(Keep(xs, v.date, p), Shown(DebitTotal(xs, v, p)), Shown(CreditTotal(xs, v, p)))
  {
    hide Accumulate, Selectable, Keep, Gather, Select, NeverNegative, Total, Money.FormatCanonical, Wrap64;
    SelectionIs(xs, v, p, Start());
    AccumulateIs(0, Gather(Keep(xs, v.date, p), v.debits));
    AccumulateIs(0, Gather(Keep(xs, v.date, p), v.credits));
    assert [] + Keep(xs, v.date, p) == Keep(xs, v.date, p);
  }

  /** With amounts that fit the totals are exact sums of cents, and an export whose sums do not fit int64 fails. */
  lemma TotalsAreExact<T>(xs: seq<T>, v: View<T>, p: Period)
    requires Fits(xs, v, p)
    ensures Summable(xs, v, p) <==> TrueTotals(xs, v, p)
    ensures Select(xs, v, p, Start()).Ok? <==> Selectable(xs, v, p) && TrueTotals(xs, v, p)
    ensures Select(xs, v, p, Start()).Ok? ==>
              Select(xs, v, p, Start()).value ==
              Selection(Keep(xs, v.date, p), Money.FormatCanonical(DebitTotal(xs, v, p)),
                        Money.FormatCanonical(CreditTotal(xs, v, p)))
  {
    hide Selectable, Keep, Gather, Select, AmountsFit, NeverNegative, Total, Money.FormatCanonical;
    TotalsAre(xs, v, p);
    FittingNeverNegative(0, Gather(Keep(xs, v.date, p), v.debits));
    FittingNeverNegative(0, Gather(Keep(xs, v.date, p), v.credits));
  }

  /** The true sums of both sides fit int64: exactly then the totals shown are the true ones. */
  predicate TrueTotals<T>(xs: seq<T>, v: View<T>, p: Period) {
    DebitTotal(xs, v, p) <= MAX_INT64 && CreditTotal(xs, v, p) <= MAX_INT64
  }

  // ----- periods compose -----

  /** Half of a period asks less of the documents than the whole. */
  lemma PartIsSelectable<T>(xs: seq<T>, v: View<T>, whole: Period, p: Period, q: Period)
    requires SplitInto(whole, p, q) && Selectable(xs, v, whole)
    ensures Selectable(xs, v, p) && Selectable(xs, v, q)
  {
    hide Within, SplitInto, Between, ValidDate;
    forall x | x in xs
      ensures Within(v.date(x), p) ==> Within(v.date(x), whole)
      ensures Within(v.date(x), q) ==> Within(v.date(x), whole)
    {
      OneOfThree(v.date(x), whole, p, q);
    }
  }

  lemma {:induction false} PartFits<T>(xs: seq<T>, date: T -> string, amounts: T -> seq<string>, whole: Period,
                                       p: Period, q: Period)
    requires SplitInto(whole, p, q) && AmountsFit(Gather(Keep(xs, date, whole), amounts))
    ensures AmountsFit(Gather(Keep(xs, date, p), amounts)) && AmountsFit(Gather(Keep(xs, date, q), amounts))
  {
    if xs != [] {
      hide *;
      var front, last := xs[..|xs| - 1], xs[|xs| - 1];
      KeepLast(xs, date, whole);
      KeepLast(xs, date, p);
      KeepLast(xs, date, q);
      OneOfThree(date(last), whole, p, q);
      GatherFits(Keep(front, date, whole), last, amounts);
      GatherFits(Keep(front, date, p), last, amounts);
      GatherFits(Keep(front, date, q), last, amounts);
      PartFits(front, date, amounts, whole, p, q);
    }
  }

  lemma GatherFits<T>(xs: seq<T>, x: T, amounts: T -> seq<string>)
    ensures AmountsFit(Gather(xs + [x], amounts)) <==> AmountsFit(Gather(xs, amounts)) && AmountsFit(amounts(x))
  {
    GatherAppend(xs, x, amounts);
    var a, b := Gather(xs, amounts), amounts(x);
    assert forall m :: m in a + b <==> m in a || m in b;
  }

  /** The totals of two selections, as numbers of cents, add up to those of a third. */
  ghost predicate AddUp<T>(first: Selection<T>, second: Selection<T>, all: Selection<T>) {
    exists d1: nat, c1: nat, d2: nat, c2: nat :: Sums(first, second, all, d1, c1, d2, c2)
  }

  ghost predicate Sums<T>(first: Selection<T>, second: Selection<T>, all: Selection<T>,
                          d1: nat, c1: nat, d2: nat, c2: nat) {
    && d1 + d2 <= MAX_INT64 && c1 + c2 <= MAX_INT64
    && first.totalDebit == Money.FormatCanonical(d1) && first.totalCredit == Money.FormatCanonical(c1)
    && second.totalDebit == Money.FormatCanonical(d2) && second.totalCredit == Money.FormatCanonical(c2)
    && all.totalDebit == Money.FormatCanonical(d1 + d2) && all.totalCredit == Money.FormatCanonical(c1 + c2)
  }

  ghost predicate Shows<T>(sel: Selection<T>, debit: nat, credit: nat) {
    && Wrap64(debit) >= 0 && Wrap64(credit) >= 0
    && sel.totalDebit == Shown(debit) && sel.totalCredit == Shown(credit)
  }

  /**
   Totals of parts and whole always add up, wrapped or not: two totals that are not negative sum to less than 2^64, and
   past int64 their sum would show as negative in the whole.
   */
  lemma TotalsAddUp<T>(first: Selection<T>, second: Selection<T>, all: Selection<T>,
                       d1: nat, c1: nat, d2: nat, c2: nat)
    requires Shows(first, d1, c1) && Shows(second, d2, c2) && Shows(all, d1 + d2, c1 + c2)
    ensures AddUp(first, second, all)
  {
    hide Money.FormatCanonical;
    WrappedSum(d1, d2);
    WrappedSum(c1, c2);
    assert Sums(first, second, all, Wrap64(d1), Wrap64(c1), Wrap64(d2), Wrap64(c2));
  }

  lemma WrappedSum(x: nat, y: nat)
    requires Wrap64(x) >= 0 && Wrap64(y) >= 0 && Wrap64(x + y) >= 0
    ensures Wrap64(x) + Wrap64(y) <= MAX_INT64 && Wrap64(x + y) == Wrap64(x) + Wrap64(y)
  {
    WrapTwice(x, Wrap64(y));
    WrapTwice(y, x);
    assert Wrap64(Wrap64(x) + Wrap64(y)) == Wrap64(x + y);
  }

  /**
   An export of a whole period splits. A part succeeds exactly when its own amounts are summable, as they are in both
   parts whenever the totals of the whole are the true ones. Two parts that succeed are disjoint; together they are all
   of the whole exactly when no document is dated between them, and then their totals add up to those of the whole.
   */
  lemma PeriodsCompose<T>(xs: seq<T>, v: View<T>, whole: Period, p: Period, q: Period)
    requires SplitInto(whole, p, q) && Select(xs, v, whole, Start()).Ok?
    ensures Select(xs, v, p, Start()).Ok? <==> Summable(xs, v, p)
    ensures Select(xs, v, q, Start()).Ok? <==> Summable(xs, v, q)
    ensures TrueTotals(xs, v, whole) ==>
              Summable(xs, v, p) && Summable(xs, v, q) && TrueTotals(xs, v, p) && TrueTotals(xs, v, q)
    ensures Summable(xs, v, p) && Summable(xs, v, q) ==>
              var all, first, second := Select(xs, v, whole, Start()).value, Select(xs, v, p, Start()).value,
                                        Select(xs, v, q, Start()).value;
              && (forall x :: !(x in first.items && x in second.items))
              && (multiset(first.items) + multiset(second.items) == multiset(all.items) <==>
                  forall x :: x in xs ==> !Between(v.date(x), p, q))
              && ((forall x :: x in xs ==> !Between(v.date(x), p, q)) ==> AddUp(first, second, all))
  {
    hide *;
    TotalsAre(xs, v, whole);
    TotalsAre(xs, v, p);
    TotalsAre(xs, v, q);
    PartIsSelectable(xs, v, whole, p, q);
    NoCommonMember(xs, v.date, whole, p, q);
    PartsAreWholeExactlyWhen(xs, v.date, v.debits, whole, p, q);
    if TrueTotals(xs, v, whole) {
      TrueWholeTrueParts(xs, v, whole, p, q);
    }
    if Summable(xs, v, p) && Summable(xs, v, q) && forall x :: x in xs ==> !Between(v.date(x), p, q) {
      PartTotals(xs, v, whole, p, q);
      SelectionShows(xs, v, whole);
      SelectionShows(xs, v, p);
      SelectionShows(xs, v, q);
      TotalsAddUp(Select(xs, v, p, Start()).value, Select(xs, v, q, Start()).value,
                  Select(xs, v, whole, Start()).value,
                  DebitTotal(xs, v, p), CreditTotal(xs, v, p), DebitTotal(xs, v, q), CreditTotal(xs, v, q));
    }
  }

  lemma SelectionShows<T>(xs: seq<T>, v: View<T>, p: Period)
    requires Select(xs, v, p, Start()).Ok?
    ensures Shows(Select(xs, v, p, Start()).value, DebitTotal(xs, v, p), CreditTotal(xs, v, p))
  {
    hide Select, Selectable, DebitTotal, CreditTotal, Wrap64, Money.FormatCanonical;
    TotalsAre(xs, v, p);
  }

  /** True totals of a whole are made of amounts that fit, so the parts are summable, and theirs are true too. */
  lemma TrueWholeTrueParts<T>(xs: seq<T>, v: View<T>, whole: Period, p: Period, q: Period)
    requires SplitInto(whole, p, q) && Summable(xs, v, whole) && TrueTotals(xs, v, whole)
    ensures Fits(xs, v, whole)
    ensures Summable(xs, v, p) && Summable(xs, v, q) && TrueTotals(xs, v, p) && TrueTotals(xs, v, q)
  {
    TrueFits(xs, v, whole);
    Parts(xs, v, whole, p, q);
    TotalsAreExact(xs, v, p);
    TotalsAreExact(xs, v, q);
    hide Fits, Summable, DebitTotal, CreditTotal, SplitInto;
  }

  lemma TrueFits<T>(xs: seq<T>, v: View<T>, p: Period)
    requires Summable(xs, v, p) && TrueTotals(xs, v, p)
    ensures Fits(xs, v, p)
  {
    hide NeverNegative, AmountsFit, Gather, Keep, Total;
    SmallTotalFits(0, Gather(Keep(xs, v.date, p), v.debits));
    SmallTotalFits(0, Gather(Keep(xs, v.date, p), v.credits));
  }

  /** So with amounts that fit both parts always succeed, and their totals add up whenever nothing falls between. */
  lemma FittingPeriodsCompose<T>(xs: seq<T>, v: View<T>, whole: Period, p: Period, q: Period)
    requires SplitInto(whole, p, q) && Fits(xs, v, whole) && Select(xs, v, whole, Start()).Ok?
    ensures Select(xs, v, p, Start()).Ok? && Select(xs, v, q, Start()).Ok?
    ensures var all, first, second := Select(xs, v, whole, Start()).value, Select(xs, v, p, Start()).value,
                                      Select(xs, v, q, Start()).value;
            && (forall x :: !(x in first.items && x in second.items))
            && (multiset(first.items) + multiset(second.items) == multiset(all.items) <==>
                forall x :: x in xs ==> !Between(v.date(x), p, q))
            && ((forall x :: x in xs ==> !Between(v.date(x), p, q)) ==> AddUp(first, second, all))
  {
    hide *;
    TotalsAreExact(xs, v, whole);
    PeriodsCompose(xs, v, whole, p, q);
  }

  lemma PartTotals<T>(xs: seq<T>, v: View<T>, whole: Period, p: Period, q: Period)
    requires SplitInto(whole, p, q) && forall x :: x in xs ==> !Between(v.date(x), p, q)
    ensures DebitTotal(xs, v, p) + DebitTotal(xs, v, q) == DebitTotal(xs, v, whole)
    ensures CreditTotal(xs, v, p) + CreditTotal(xs, v, q) == CreditTotal(xs, v, whole)
  {
    hide SplitInto, Gather, Keep, Total, Between;
    PartsAreWholeExactlyWhen(xs, v.date, v.debits, whole, p, q);
    PartsAreWholeExactlyWhen(xs, v.date, v.credits, whole, p, q);
  }

  lemma Parts<T>(xs: seq<T>, v: View<T>, whole: Period, p: Period, q: Period)
    requires SplitInto(whole, p, q) && Fits(xs, v, whole)
    ensures Fits(xs, v, p) && Fits(xs, v, q)
    ensures DebitTotal(xs, v, p) + DebitTotal(xs, v, q) <= DebitTotal(xs, v, whole)
    ensures CreditTotal(xs, v, p) + CreditTotal(xs, v, q) <= CreditTotal(xs, v, whole)
  {
    hide AmountsFit, SplitInto, Gather, Keep, KeepBetween, Total;
    PartFits(xs, v.date, v.debits, whole, p, q);
    PartFits(xs, v.date, v.credits, whole, p, q);
    WholeAmounts(xs, v.date, v.debits, whole, p, q);
    WholeAmounts(xs, v.date, v.credits, whole, p, q);
  }

  lemma NoCommonMember<T>(xs: seq<T>, date: T -> string, whole: Period, p: Period, q: Period)
    requires SplitInto(whole, p, q)
    ensures forall x :: !(x in Keep(xs, date, p) && x in Keep(xs, date, q))
  {
    forall x | x in Keep(xs, date, p) && x in Keep(xs, date, q)
      ensures false
    {
      KeptMember(xs, date, p, x);
      KeptMember(xs, date, q, x);
      OneOfThree(date(x), whole, p, q);
    }
  }

  lemma KeptMember<T>(xs: seq<T>, date: T -> string, p: Period, x: T)
    ensures x in Keep(xs, date, p) <==> x in xs && Within(date(x), p)
  {
    KeepMembers(xs, date, p);
  }

  // ----- without amounts that fit -----

  function Lenient(): Rules {
    Rules({"FT"}, (d: Document) => true)
  }

  function OneDebit(date: string, amount: string): Document {
    Document(date, "FT", [AmountLine(Some(amount), None)], 0)
  }

  lemma OneDebitAmounts(date: string, amount: string)
    ensures DebitsOf(OneDebit(date, amount).lines) == [amount] && CreditsOf(OneDebit(date, amount).lines) == []
  {
    var lines := OneDebit(date, amount).lines;
    assert lines[..0] == [];
    assert DebitsOf([]) == [] && CreditsOf([]) == [];
  }

  lemma AccumulateSingle(acc: string, amount: string)
    ensures Accumulate(acc, [amount]) == AddMoney(acc, amount) && Accumulate(acc, []) == Some(acc)
  {
    assert [amount][..0] == [];
  }

  lemma LargeSums()
    ensures AddMoney(Zero(), Money.FormatCanonical(MAX_INT64)) == Some(Money.FormatCanonical(MAX_INT64))
    ensures AddMoney(Money.FormatCanonical(MAX_INT64), LargeAmount()) == Some(Money.FormatCanonical(90))
    ensures AddMoney(Zero(), LargeAmount()) == None
  {
    hide Money.FormatCanonical, AddMoney, ValidMoney2, Amount, Major, LargeAmount, ValidDecimal, ParseMoneyCents;
    AccumulatorText(MAX_INT64);
    AddMoneyExact(0, Money.FormatCanonical(MAX_INT64));
    WrappedTotal();
    LargeAmountIs();
    AddMoneyIs(0, LargeAmount());
  }

  /**
   With an amount that overflows, a whole period can succeed where its first part fails: the total wraps twice into
   range over the whole and not over the part.
   */
  lemma WrappingBreaksParts(whole: Period, p: Period, q: Period, early: string, late: string)
    requires SplitInto(whole, p, q) && ValidDate(early) && ValidDate(late) && Within(early, p) && Within(late, q)
    ensures var rules := Lenient();
            var documents := [OneDebit(late, Money.FormatCanonical(MAX_INT64)), OneDebit(early, LargeAmount())];
            && Select(documents, ViewOf(rules), whole, Start()).Ok?
            && Select(documents, ViewOf(rules), whole, Start()).value.totalDebit == Money.FormatCanonical(90)
            && Select(documents, ViewOf(rules), p, Start()) == Err(BadSum)
  {
    hide Money.FormatCanonical, AddMoney, LargeAmount, Accumulate, ValidDate, Within, Zero, SplitInto, Between,
         DebitsOf, CreditsOf;
    var rules := Lenient();
    var v := ViewOf(rules);
    var a, b := OneDebit(late, Money.FormatCanonical(MAX_INT64)), OneDebit(early, LargeAmount());
    OneOfThree(early, whole, p, q);
    OneOfThree(late, whole, p, q);
    OneDebitAmounts(late, Money.FormatCanonical(MAX_INT64));
    OneDebitAmounts(early, LargeAmount());
    LargeSums();
    AccumulateSingle(Zero(), Money.FormatCanonical(MAX_INT64));
    AccumulateSingle(Money.FormatCanonical(MAX_INT64), LargeAmount());
    AccumulateSingle(Zero(), LargeAmount());
    SelectTwo(a, b, v, whole);
    SelectTwo(a, b, v, p);
  }

  lemma SelectTwo(a: Document, b: Document, v: View<Document>, p: Period)
    ensures Select([a, b], v, p, Start()) ==
            var first := Step(Start(), a, 0, v, p);
            if first.Err? then Err(first.error) else Step(first.value, b, 1, v, p)
  {
    hide Step;
    assert [a, b][..1] == [a] && [a][..0] == [];
    assert Select([], v, p, Start()) == Ok(Start());
    assert Select([a], v, p, Start()) == Step(Start(), a, 0, v, p);
  }
}
