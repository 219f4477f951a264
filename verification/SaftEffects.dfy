/**
 What the period filters keep, add up and refuse, said of the documents' own lines and places
 (internal/saftao/export.go).
 */
module SaftEffects {
  import opened Prelude
  import opened Numerals
  import opened SaftAmounts
  import opened SaftPeriods
  import opened SaftExport
  import opened SaftLedger
  import opened SaftLedgerPeriods
  import Money

  // ----- what is kept -----

  /** The members at these places, in this order, are all those dated in the period. */
  ghost predicate KeptAt<T>(xs: seq<T>, kept: seq<T>, ks: seq<nat>, date: T -> string, p: Period) {
    && |ks| == |kept| && (forall i, j :: 0 <= i < j < |ks| ==> ks[i] < ks[j])
    && (forall i :: 0 <= i < |ks| ==> ks[i] < |xs| && kept[i] == xs[ks[i]])
    && (forall k :: 0 <= k < |xs| ==> (k in ks <==> !Less(date(xs[k]), p.start) && !Less(p.end, date(xs[k]))))
  }

  lemma {:induction false} KeepsInOrder<T>(xs: seq<T>, date: T -> string, p: Period) returns (ks: seq<nat>)
    ensures KeptAt(xs, Keep(xs, date, p), ks, date, p)
  {
    hide Less;
    if xs == [] {
      ks := [];
    } else {
      var front, last := xs[..|xs| - 1], xs[|xs| - 1];
      ks := KeepsInOrder(front, date, p);
      KeepLast(xs, date, p);
      hide Keep;
      assert forall k :: 0 <= k < |front| ==> front[k] == xs[k];
      if Within(date(last), p) {
        ks := ks + [|front|];
      }
    }
  }

  // ----- the totals of a document -----

  /** The cents of an optional amount. */
  function CentsOf(amount: Option<string>): nat {
    if amount.Some? && ValidMoney2(amount.value) then Amount(amount.value) else 0
  }

  function DebitCents(lines: seq<AmountLine>): nat {
    if lines == [] then 0 else DebitCents(lines[..|lines| - 1]) + CentsOf(lines[|lines| - 1].debit)
  }

  function CreditCents(lines: seq<AmountLine>): nat {
    if lines == [] then 0 else CreditCents(lines[..|lines| - 1]) + CentsOf(lines[|lines| - 1].credit)
  }

  function DebitCentsOf(documents: seq<Document>): nat {
    if documents == [] then 0
    else DebitCentsOf(documents[..|documents| - 1]) + DebitCents(documents[|documents| - 1].lines)
  }

  function CreditCentsOf(documents: seq<Document>): nat {
    if documents == [] then 0
    else CreditCentsOf(documents[..|documents| - 1]) + CreditCents(documents[|documents| - 1].lines)
  }

  lemma ListedCents(amount: Option<string>)
    ensures Total(Listed(amount)) == CentsOf(amount)
  {
    hide ValidMoney2, Amount;
    if amount.Some? {
      assert [amount.value][..0] == [];
    }
  }

  lemma {:induction false} LinesAddUp(lines: seq<AmountLine>)
    ensures Total(DebitsOf(lines)) == DebitCents(lines) && Total(CreditsOf(lines)) == CreditCents(lines)
  {
    hide Total, CentsOf;
    if lines == [] {
      NothingTotalled();
    } else {
      var front, last := lines[..|lines| - 1], lines[|lines| - 1];
      LinesAddUp(front);
      TotalConcat(DebitsOf(front), Listed(last.debit));
      TotalConcat(CreditsOf(front), Listed(last.credit));
      ListedCents(last.debit);
      ListedCents(last.credit);
    }
  }

  lemma NothingTotalled()
    ensures Total([]) == 0
  {
  }

  lemma {:induction false} DocumentsAddUp(documents: seq<Document>, rules: Rules)
    ensures Total(Gather(documents, ViewOf(rules).debits)) == DebitCentsOf(documents)
    ensures Total(Gather(documents, ViewOf(rules).credits)) == CreditCentsOf(documents)
  {
    if documents == [] {
      NothingGathered(ViewOf(rules).debits);
      NothingGathered(ViewOf(rules).credits);
    } else {
      hide Total, Gather, DebitsOf, CreditsOf, DebitCents, CreditCents;
      var front, last := documents[..|documents| - 1], documents[|documents| - 1];
      assert documents == front + [last];
      DocumentsAddUp(front, rules);
      LinesAddUp(last.lines);
      GatherAppend(front, last, ViewOf(rules).debits);
      GatherAppend(front, last, ViewOf(rules).credits);
    }
  }

  /**
   A successful filter of documents whose amounts fit selects those dated in the period, in order, and shows the sums of
   their own lines' debits and credits, to the cent.
   */
  lemma SelectionAddsUp(documents: seq<Document>, p: Period, rules: Rules) returns (ks: seq<nat>)
    requires Fits(documents, ViewOf(rules), p) && Select(documents, ViewOf(rules), p, Start()).Ok?
    ensures var sel := Select(documents, ViewOf(rules), p, Start()).value;
            && KeptAt(documents, sel.items, ks, ViewOf(rules).date, p)
            && DebitCentsOf(sel.items) <= MAX_INT64 && CreditCentsOf(sel.items) <= MAX_INT64
            && sel.totalDebit == Money.FormatCanonical(DebitCentsOf(sel.items))
            && sel.totalCredit == Money.FormatCanonical(CreditCentsOf(sel.items))
  {
    hide Select, Fits, Selectable, Keep, KeptAt, Gather, Total, Money.FormatCanonical, DebitCentsOf, CreditCentsOf;
    ks := KeepsInOrder(documents, ViewOf(rules).date, p);
    TotalsAreExact(documents, ViewOf(rules), p);
    DocumentsAddUp(Keep(documents, ViewOf(rules).date, p), rules);
  }

  // ----- refusals -----

  /** Why the i-th document stops the filter, once those before it have passed. */
  ghost predicate StopsAt<T(!new)>(xs: seq<T>, i: nat, v: View<T>, p: Period, e: ExportError) {
    && i < |xs| && (forall k :: 0 <= k < i ==> Passes(xs[k], v, p))
    && var x := xs[i];
       || (e == BadDate(i) && !ValidDate(v.date(x)))
       || (ValidDate(v.date(x)) && Within(v.date(x), p) &&
           ((e == TypeNotAllowed && !v.allowed(x)) ||
            (e == Malformed(i) && v.allowed(x) && !v.sound(x)) ||
            (e == BadSum && v.allowed(x) && v.sound(x) && Totalled(xs[..i + 1], v, p, Start()).None?)))
  }

  predicate Passes<T>(x: T, v: View<T>, p: Period) {
    ValidDate(v.date(x)) && (Within(v.date(x), p) ==> v.allowed(x) && v.sound(x))
  }

  /** A refusal names the first document that does not pass and the first thing wrong with it. */
  lemma {:induction false} RefusalMeans<T(!new)>(xs: seq<T>, v: View<T>, p: Period) returns (i: nat)
    requires Select(xs, v, p, Start()).Err?
    ensures StopsAt(xs, i, v, p, Select(xs, v, p, Start()).error)
  {
    hide ValidDate, Within, Accumulate, Totalled;
    var front, last := xs[..|xs| - 1], xs[|xs| - 1];
    assert xs == front + [last];
    if Select(front, v, p, Start()).Err? {
      i := RefusalMeans(front, v, p);
      assert xs[..i + 1] == front[..i + 1];
    } else {
      i := |xs| - 1;
      SelectionIs(front, v, p, Start());
      SelectionIs(xs, v, p, Start());
      forall k | 0 <= k < i
        ensures Passes(xs[k], v, p)
      {
        assert front[k] == xs[k] && front[k] in front;
      }
      assert xs[..i + 1] == xs;
      if Step(Select(front, v, p, Start()).value, last, i, v, p) == Err(BadSum) {
        SelectableFront(xs, v, p);
      }
    }
  }

  // ----- the ledger -----

  /** Each journal kept is one of the input, in order, with its own heading and its transactions of the period. */
  ghost predicate JournalsAt(js: seq<Journal>, kept: seq<Journal>, ks: seq<nat>, p: Period) {
    && |ks| == |kept| && (forall i, j :: 0 <= i < j < |ks| ==> ks[i] < ks[j])
    && (forall i :: 0 <= i < |ks| ==> ks[i] < |js| && IsPartOf(kept[i], js[ks[i]], p))
    && (forall k :: 0 <= k < |js| && k !in ks ==> NothingIn(js[k], p))
  }

  predicate IsPartOf(kept: Journal, j: Journal, p: Period) {
    && kept.id == j.id && kept.description == j.description
    && kept.transactions != [] && kept.transactions == Keep(j.transactions, DateOf(), p)
  }

  predicate NothingIn(j: Journal, p: Period) {
    Keep(j.transactions, DateOf(), p) == []
  }

  lemma PartOrNothing(j: Journal, p: Period)
    ensures if Part(j, p).transactions == [] then NothingIn(j, p) else IsPartOf(Part(j, p), j, p)
  {
  }

  lemma NothingMore(front: seq<Journal>, last: Journal, kept: seq<Journal>, ks: seq<nat>, p: Period)
    requires JournalsAt(front, kept, ks, p) && NothingIn(last, p)
    ensures JournalsAt(front + [last], kept, ks, p)
  {
    hide IsPartOf, NothingIn;
    assert forall k :: 0 <= k < |front| ==> (front + [last])[k] == front[k];
  }

  lemma OneMoreJournal(front: seq<Journal>, last: Journal, kept: seq<Journal>, ks: seq<nat>, part: Journal, p: Period)
    requires JournalsAt(front, kept, ks, p) && IsPartOf(part, last, p)
    ensures JournalsAt(front + [last], kept + [part], ks + [|front|], p)
  {
    hide IsPartOf, NothingIn;
    var js, ms := front + [last], ks + [|front|];
    assert forall k :: 0 <= k < |front| ==> js[k] == front[k];
    assert forall k :: k in ks ==> k in ms;
    forall i | 0 <= i < |ms|
      ensures ms[i] < |js| && IsPartOf((kept + [part])[i], js[ms[i]], p)
    {
      if i < |ks| {
        assert ms[i] == ks[i] && (kept + [part])[i] == kept[i];
      }
    }
  }

  lemma {:induction false} KeepsJournals(js: seq<Journal>, p: Period) returns (ks: seq<nat>)
    ensures JournalsAt(js, KeptJournals(js, p), ks, p)
  {
    if js == [] {
      ks := [];
    } else {
      var front, last := js[..|js| - 1], js[|js| - 1];
      KeptNext(front, last, p);
      assert js == front + [last];
      hide *;
      ks := KeepsJournals(front, p);
      PartOrNothing(last, p);
      if Part(last, p).transactions != [] {
        OneMoreJournal(front, last, KeptJournals(front, p), ks, Part(last, p), p);
        ks := ks + [|front|];
      } else {
        NothingMore(front, last, KeptJournals(front, p), ks, p);
      }
    }
  }

  lemma KeptNext(front: seq<Journal>, last: Journal, p: Period)
    ensures KeptJournals(front + [last], p) ==
            if Part(last, p).transactions == [] then KeptJournals(front, p)
            else KeptJournals(front, p) + [Part(last, p)]
  {
    hide Part;
    assert (front + [last])[..|front|] == front;
  }

  /** The shape of a successful result. */
  lemma FilteredShape(e: Entries, rules: LedgerRules, p: Period, includeEmpty: bool)
    requires Filtered(Some(e), rules, p, includeEmpty).Ok?
    ensures Journals(e.journals, rules, p).Ok?
    ensures var st := Journals(e.journals, rules, p).value;
            match Filtered(Some(e), rules, p, includeEmpty).value
            case None => !includeEmpty && Flat(st.journals) == []
            case Some(left) =>
              && left.numberOfEntries == FormatNat(|Flat(left.journals)|) && (Flat(left.journals) != [] || includeEmpty)
              && (left.journals == st.journals || (left.journals == [] && Flat(st.journals) == []))
  {
    assert FormatNat(0) == "0";
    assert Flat([]) == [];
    hide Journals, EntriesOk, FormatNat, Flat, Zero;
  }

  /**
   What a successful ledger filter leaves: nothing only if nothing is in the period and no empty ledger was asked for;
   otherwise the input's journals that have transactions in it, with those, and their number.
   */
  lemma LedgerLeaves(e: Entries, rules: LedgerRules, p: Period, includeEmpty: bool) returns (ks: seq<nat>)
    requires Filtered(Some(e), rules, p, includeEmpty).Ok?
    ensures match Filtered(Some(e), rules, p, includeEmpty).value
            case None => !includeEmpty && JournalsAt(e.journals, [], ks, p)
            case Some(left) =>
              && JournalsAt(e.journals, left.journals, ks, p) && (Flat(left.journals) != [] || includeEmpty)
              && left.numberOfEntries == FormatNat(|Flat(left.journals)|)
  {
    hide *;
    var js := e.journals;
    ks := KeepsJournals(js, p);
    FilteredShape(e, rules, p, includeEmpty);
    LedgerIs(js, rules, p);
    SummedJournals(js, p);
    if Flat(KeptJournals(js, p)) == [] {
      NothingKept(js, p);
    }
  }
}
