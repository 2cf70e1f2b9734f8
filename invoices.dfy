/** The admin invoice list: a constant table of invoices, the search and
    status filter over it, and the summary figures shown above it. Amounts
    are whole taka. */
module Invoices {
  import Text
  import Seqs

  datatype Invoice = Invoice(
    id: string,
    studentName: string,
    studentId: string,
    className: string,
    feeType: string,
    amount: int,
    status: string)

  const MockInvoices: seq<Invoice> := [
    Invoice("INV-2024-001", "Rashid Ahmed", "STU001", "Grade 10-A", "Tuition Fee", 15000, "Paid"),
    Invoice("INV-2024-002", "Fatima Khan", "STU002", "Grade 9-B", "Activity Fee", 2500, "Pending"),
    Invoice("INV-2024-003", "Mohammad Rahman", "STU003", "Grade 11-A", "Lab Fee", 3000, "Overdue"),
    Invoice("INV-2024-004", "Ayesha Begum", "STU004", "Grade 8-C", "Transport Fee", 1800, "Paid")
  ]

  /** The search: the lowercased term occurs in the lowercased student name,
      invoice id or student id. */
  predicate MatchesSearch(inv: Invoice, term: string)
  {
    var t := Text.Lower(term);
    || Text.Contains(Text.Lower(inv.studentName), t)
    || Text.Contains(Text.Lower(inv.id), t)
    || Text.Contains(Text.Lower(inv.studentId), t)
  }

  /** The status drop-down: "all", or the status compared ignoring case. */
  predicate MatchesStatus(inv: Invoice, selected: string)
  {
    selected == "all" || Text.Lower(inv.status) == Text.Lower(selected)
  }

  predicate Kept(inv: Invoice, term: string, selected: string)
  {
    MatchesSearch(inv, term) && MatchesStatus(inv, selected)
  }

  function FilteredInvoices(invoices: seq<Invoice>, term: string, selected: string): seq<Invoice>
  {
    Seqs.Filter(invoices, (inv: Invoice) => Kept(inv, term, selected))
  }

  /** An invoice is listed exactly when it passes both tests, as often as
      the table holds it, and the list keeps the table's order. */
  lemma {:induction false} FilterKeepsExactly(invoices: seq<Invoice>, term: string, selected: string)
    ensures forall x :: x in FilteredInvoices(invoices, term, selected) <==>
                        x in invoices && MatchesSearch(x, term) && MatchesStatus(x, selected)
    ensures Seqs.IsSubsequence(FilteredInvoices(invoices, term, selected), invoices)
    ensures |FilteredInvoices(invoices, term, selected)| <= |invoices|
    ensures forall x :: multiset(FilteredInvoices(invoices, term, selected))[x] ==
                        if Kept(x, term, selected) then multiset(invoices)[x] else 0
  {
    Seqs.FilterIsSubsequence(invoices, (inv: Invoice) => Kept(inv, term, selected));
    Seqs.FilterCounts(invoices, (inv: Invoice) => Kept(inv, term, selected));
  }

  /** The initial filters, an empty search and "all", list every invoice. */
  lemma {:induction false} InitialFilterKeepsAll(invoices: seq<Invoice>)
    ensures FilteredInvoices(invoices, "", "all") == invoices
  {
    forall i | 0 <= i < |invoices|
      ensures Kept(invoices[i], "", "all")
    {
      Text.ContainsEmpty(Text.Lower(invoices[i].studentName));
    }
    Seqs.FilterKeepsAll(invoices, (inv: Invoice) => Kept(inv, "", "all"));
  }

  // ---------------------------------------------------------------------
  // Summary figures

  predicate IsPaid(inv: Invoice) { inv.status == "Paid" }

  function Amount(inv: Invoice): int { inv.amount }

  function TotalInvoices(invoices: seq<Invoice>): nat { |invoices| }

  /** Invoices whose status is exactly "Paid" (case matters here). */
  function PaidInvoices(invoices: seq<Invoice>): (n: nat)
    ensures n <= TotalInvoices(invoices)
  {
    |Seqs.Filter(invoices, IsPaid)|
  }

  /** The amounts of every invoice not exactly "Paid". */
  function PendingAmount(invoices: seq<Invoice>): int
  {
    Seqs.Sum(Seqs.Filter(invoices, (inv: Invoice) => !IsPaid(inv)), Amount)
  }

  function PaidAmount(invoices: seq<Invoice>): int
  {
    Seqs.Sum(Seqs.Filter(invoices, IsPaid), Amount)
  }

  function TotalAmount(invoices: seq<Invoice>): int
  {
    Seqs.Sum(invoices, Amount)
  }

  /** Pending and paid amounts split the total; with non-negative amounts
      the pending amount is at most the total. */
  lemma {:induction false} AmountsPartition(invoices: seq<Invoice>)
    ensures PendingAmount(invoices) + PaidAmount(invoices) == TotalAmount(invoices)
    ensures (forall i :: 0 <= i < |invoices| ==> invoices[i].amount >= 0) ==>
            0 <= PendingAmount(invoices) <= TotalAmount(invoices)
  {
    Seqs.SumPartition(invoices, Amount, IsPaid, (inv: Invoice) => !IsPaid(inv));
    if forall i :: 0 <= i < |invoices| ==> invoices[i].amount >= 0 {
      Seqs.SumFilterBounded(invoices, Amount, (inv: Invoice) => !IsPaid(inv));
    }
  }

  /** The invoice count and the total above the mock table. */
  lemma MockTotal()
    ensures TotalInvoices(MockInvoices) == 4
    ensures TotalAmount(MockInvoices) == 22300
  {
  }

  /** Two mock invoices are paid. */
  lemma MockPaidCount()
    ensures PaidInvoices(MockInvoices) == 2
  {
    var v := MockInvoices;
    assert IsPaid(v[0]) && !IsPaid(v[1]) && !IsPaid(v[2]) && IsPaid(v[3]);
    assert Seqs.Filter(v, IsPaid) == [v[0], v[3]];
  }

  /** The pending amount over the mock table. */
  lemma MockPending()
    ensures PendingAmount(MockInvoices) == 5500
  {
    var v := MockInvoices;
    assert IsPaid(v[0]) && !IsPaid(v[1]) && !IsPaid(v[2]) && IsPaid(v[3]);
    assert Seqs.Filter(v, (inv: Invoice) => !IsPaid(inv)) == [v[1], v[2]];
  }
}
