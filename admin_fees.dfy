/** The admin fee page: the fee-structure list with its search and two
    drop-down filters, and the dialogs that create a fee structure and edit
    or delete a payment. The handlers validate their form and close their
    dialog; none of them changes the fee or payment lists. */
module AdminFees {
  import opened Optional
  import Text
  import Seqs
  import Numbers

  datatype FeeStructure = FeeStructure(
    id: string,
    name: string,
    category: string,
    amount: int,
    frequency: string,
    dueDate: string,
    status: string,
    studentsCount: nat,
    description: string)

  /** A payment as the edit dialog sees it; the notes may be missing, which
      the dialog's `|| ""` allows for. */
  datatype Payment = Payment(
    id: string,
    studentName: string,
    studentId: string,
    amount: int,
    feeType: string,
    status: string,
    dueDate: string,
    notes: Option<string>)

  const MockFeeStructures: seq<FeeStructure> := [
    FeeStructure("1", "Tuition Fee - Grade 10", "Tuition", 15000, "Monthly", "5th of every month", "Active", 45,
                 "Monthly tuition fee for Grade 10 students"),
    FeeStructure("2", "Activity Fee - Sports", "Activity", 2500, "Quarterly", "1st of quarter", "Active", 120,
                 "Quarterly sports and extracurricular activities fee"),
    FeeStructure("3", "Library Fee", "Facility", 500, "Annual", "April 1st", "Active", 200,
                 "Annual library maintenance and book fee"),
    FeeStructure("4", "Lab Fee - Science", "Laboratory", 3000, "Semester", "Start of semester", "Active", 80,
                 "Semester laboratory equipment and materials fee")
  ]

  const MockRecentPayments: seq<Payment> := [
    Payment("PAY001", "John Doe", "STU001", 15000, "Tuition Fee", "Completed", "2024-01-10",
            Some("Payment received on time")),
    Payment("PAY002", "Jane Smith", "STU002", 2500, "Activity Fee", "Completed", "2024-01-12",
            Some("Sports activity fee for Q1")),
    Payment("PAY003", "Mike Johnson", "STU003", 15000, "Tuition Fee", "Pending", "2024-01-15",
            Some("Awaiting bank confirmation"))
  ]

  // ---------------------------------------------------------------------
  // Filtering the fee structures

  predicate MatchesSearch(fee: FeeStructure, term: string)
  {
    var t := Text.Lower(term);
    Text.Contains(Text.Lower(fee.name), t) || Text.Contains(Text.Lower(fee.category), t)
  }

  /** A drop-down filter: "all", or the value compared ignoring case. */
  predicate MatchesChoice(value: string, selected: string)
  {
    selected == "all" || Text.Lower(value) == Text.Lower(selected)
  }

  predicate Kept(fee: FeeStructure, term: string, category: string, status: string)
  {
    MatchesSearch(fee, term) && MatchesChoice(fee.category, category) && MatchesChoice(fee.status, status)
  }

  function FilteredFeeStructures(fees: seq<FeeStructure>, term: string, category: string, status: string)
    : seq<FeeStructure>
  {
    Seqs.Filter(fees, (fee: FeeStructure) => Kept(fee, term, category, status))
  }

  /** A fee structure is listed exactly when it passes all three tests, as
      often as the table holds it, and the list keeps the table's order. */
  lemma {:induction false} FilterKeepsExactly(fees: seq<FeeStructure>, term: string, category: string, status: string)
    ensures forall x :: x in FilteredFeeStructures(fees, term, category, status) <==>
                        && x in fees && MatchesSearch(x, term)
                        && MatchesChoice(x.category, category) && MatchesChoice(x.status, status)
    ensures Seqs.IsSubsequence(FilteredFeeStructures(fees, term, category, status), fees)
    ensures forall x :: multiset(FilteredFeeStructures(fees, term, category, status))[x] ==
                        if Kept(x, term, category, status) then multiset(fees)[x] else 0
  {
    Seqs.FilterIsSubsequence(fees, (fee: FeeStructure) => Kept(fee, term, category, status));
    Seqs.FilterCounts(fees, (fee: FeeStructure) => Kept(fee, term, category, status));
  }

  /** The initial filters list every fee structure. */
  lemma {:induction false} InitialFiltersKeepAll(fees: seq<FeeStructure>)
    ensures FilteredFeeStructures(fees, "", "all", "all") == fees
  {
    forall i | 0 <= i < |fees|
      ensures Kept(fees[i], "", "all", "all")
    {
      Text.ContainsEmpty(Text.Lower(fees[i].name));
    }
    Seqs.FilterKeepsAll(fees, (fee: FeeStructure) => Kept(fee, "", "all", "all"));
  }

  /** On the mock data the initial filters show the whole table, all four
      structures. */
  lemma MockFiltersKeepAll()
    ensures FilteredFeeStructures(MockFeeStructures, "", "all", "all") == MockFeeStructures
    ensures |FilteredFeeStructures(MockFeeStructures, "", "all", "all")| == 4
  {
    InitialFiltersKeepAll(MockFeeStructures);
  }

  // ---------------------------------------------------------------------
  // Forms and their guards

  datatype NewFeeForm = NewFeeForm(
    name: string,
    category: string,
    amount: string,
    frequency: string,
    dueDate: string,
    description: string,
    isRecurring: bool,
    isActive: bool)

  /** The create form's initial and reset value. */
  const EmptyNewFeeForm := NewFeeForm("", "", "", "", "", "", true, true)

  /** Name, category and amount are required; the amount is not parsed. */
  predicate NewFeeComplete(f: NewFeeForm)
  {
    f.name != "" && f.category != "" && f.amount != ""
  }

  datatype PaymentForm = PaymentForm(feeType: string, amount: string, dueDate: string, status: string, notes: string)

  const EmptyPaymentForm := PaymentForm("", "", "", "", "")

  /** `handleEditPayment`'s pre-filled form: the amount as its decimal text,
      missing or empty notes as "". */
  function PrefillPaymentForm(p: Payment): (f: PaymentForm)
    ensures f.feeType == p.feeType && f.status == p.status && f.dueDate == p.dueDate
    ensures Numbers.ParseFloat(f.amount) == Some(p.amount as real)
    ensures f.notes == if p.notes.Some? then p.notes.value else ""
  {
    Numbers.ParseIntToString(p.amount);
    PaymentForm(p.feeType, Numbers.IntToString(p.amount), p.dueDate, p.status,
                if p.notes.Some? && p.notes.value != "" then p.notes.value else "")
  }

  datatype PaymentEditOutcome = PaymentMissingFields | NonPositiveAmount | PaymentSaved

  /** `handleSavePaymentEdit`'s guards. An amount text with no numeric
      prefix parses to NaN, which fails the `<= 0` test, so it is saved. */
  function CheckPaymentEdit(f: PaymentForm): PaymentEditOutcome
  {
    if f.feeType == "" || f.amount == "" || f.status == "" then PaymentMissingFields
    else match Numbers.ParseFloat(f.amount)
      case Some(v) => if v <= 0.0 then NonPositiveAmount else PaymentSaved
      case None => PaymentSaved
  }

  /** The edit is refused for a missing field exactly when fee type, amount
      or status is empty, and as non-positive exactly when the amount text
      starts with a number that is at most 0. */
  lemma PaymentEditGuards(f: PaymentForm)
    ensures CheckPaymentEdit(f) == PaymentMissingFields <==> f.feeType == "" || f.amount == "" || f.status == ""
    ensures CheckPaymentEdit(f) == NonPositiveAmount <==>
            && f.feeType != "" && f.amount != "" && f.status != ""
            && Numbers.ParseFloat(f.amount).Some? && Numbers.ParseFloat(f.amount).value <= 0.0
  {
  }

  /** Opening a payment and saving the pre-filled form unchanged is accepted
      exactly when its amount is positive, provided its fee type and status
      are non-empty. */
  lemma PrefillThenSave(p: Payment)
    requires p.feeType != "" && p.status != ""
    ensures CheckPaymentEdit(PrefillPaymentForm(p)) == if p.amount > 0 then PaymentSaved else NonPositiveAmount
  {
  }

  /** Every recent payment (the only rows with an Edit action) opens into a
      form that saves. */
  lemma MockPaymentsSave()
    ensures forall i :: 0 <= i < |MockRecentPayments| ==>
              CheckPaymentEdit(PrefillPaymentForm(MockRecentPayments[i])) == PaymentSaved
  {
    forall i | 0 <= i < |MockRecentPayments|
      ensures CheckPaymentEdit(PrefillPaymentForm(MockRecentPayments[i])) == PaymentSaved
    {
      PrefillThenSave(MockRecentPayments[i]);
    }
  }

  // ---------------------------------------------------------------------
  // The page state

  class FeesPage {
    var feeStructures: seq<FeeStructure>
    var recentPayments: seq<Payment>
    var searchTerm: string
    var selectedCategory: string
    var selectedStatus: string
    var newFeeStructure: NewFeeForm
    var isCreateDialogOpen: bool
    var isEditDialogOpen: bool
    var selectedFee: Option<FeeStructure>
    var selectedPayment: Option<Payment>
    var editPaymentForm: PaymentForm
    var isEditPaymentOpen: bool
    var isDeleteDialogOpen: bool

    /** The fee structures the table shows. */
    function Shown(): seq<FeeStructure>
      reads this
    {
      FilteredFeeStructures(feeStructures, searchTerm, selectedCategory, selectedStatus)
    }

    constructor()
      ensures feeStructures == MockFeeStructures && recentPayments == MockRecentPayments
      ensures searchTerm == "" && selectedCategory == "all" && selectedStatus == "all"
      ensures newFeeStructure == EmptyNewFeeForm && editPaymentForm == EmptyPaymentForm
      ensures !isCreateDialogOpen && !isEditDialogOpen && !isEditPaymentOpen && !isDeleteDialogOpen
      ensures selectedFee == None && selectedPayment == None
    {
      feeStructures := MockFeeStructures;
      recentPayments := MockRecentPayments;
      searchTerm := "";
      selectedCategory := "all";
      selectedStatus := "all";
      newFeeStructure := EmptyNewFeeForm;
      isCreateDialogOpen := false;
      isEditDialogOpen := false;
      selectedFee := None;
      selectedPayment := None;
      editPaymentForm := EmptyPaymentForm;
      isEditPaymentOpen := false;
      isDeleteDialogOpen := false;
    }

    /** The search box and the two drop-downs: the table then shows exactly
        the structures that pass the new filters, in their order. */
    method SetFilters(term: string, category: string, status: string)
      modifies this`searchTerm, this`selectedCategory, this`selectedStatus
      ensures searchTerm == term && selectedCategory == category && selectedStatus == status
      ensures forall x :: x in Shown() <==> x in feeStructures && Kept(x, term, category, status)
      ensures Seqs.IsSubsequence(Shown(), feeStructures)
    {
      searchTerm, selectedCategory, selectedStatus := term, category, status;
      FilterKeepsExactly(feeStructures, term, category, status);
    }

    /** `handleCreateFeeStructure`: validate, then close the dialog and reset
        the form. Nothing is stored. */
    method CreateFeeStructure() returns (created: bool)
      modifies this`isCreateDialogOpen, this`newFeeStructure
      ensures created == NewFeeComplete(old(newFeeStructure))
      ensures !created ==> isCreateDialogOpen == old(isCreateDialogOpen) && newFeeStructure == old(newFeeStructure)
      ensures created ==> !isCreateDialogOpen && newFeeStructure == EmptyNewFeeForm
    {
      if !NewFeeComplete(newFeeStructure) {
        return false;
      }
      isCreateDialogOpen := false;
      newFeeStructure := EmptyNewFeeForm;
      created := true;
    }

    /** `handleEditFeeStructure`: close the dialog and clear the selection. */
    method EditFeeStructure()
      modifies this`isEditDialogOpen, this`selectedFee
      ensures !isEditDialogOpen && selectedFee == None
    {
      isEditDialogOpen := false;
      selectedFee := None;
    }

    /** `handleEditPayment`: select the payment and pre-fill its form. */
    method EditPayment(p: Payment)
      modifies this`selectedPayment, this`editPaymentForm, this`isEditPaymentOpen
      ensures selectedPayment == Some(p) && editPaymentForm == PrefillPaymentForm(p) && isEditPaymentOpen
    {
      selectedPayment := Some(p);
      editPaymentForm := PrefillPaymentForm(p);
      isEditPaymentOpen := true;
    }

    /** `handleSavePaymentEdit`: validate, then close the dialog and clear the
        selection. The payment itself is not changed. */
    method SavePaymentEdit() returns (outcome: PaymentEditOutcome)
      modifies this`isEditPaymentOpen, this`selectedPayment
      ensures outcome == CheckPaymentEdit(editPaymentForm)
      ensures outcome != PaymentSaved ==>
                isEditPaymentOpen == old(isEditPaymentOpen) && selectedPayment == old(selectedPayment)
      ensures outcome == PaymentSaved ==> !isEditPaymentOpen && selectedPayment == None
    {
      outcome := CheckPaymentEdit(editPaymentForm);
      if outcome == PaymentSaved {
        isEditPaymentOpen := false;
        selectedPayment := None;
      }
    }

    /** `handleDeletePayment`: ask for confirmation. */
    method DeletePayment(p: Payment)
      modifies this`selectedPayment, this`isDeleteDialogOpen
      ensures selectedPayment == Some(p) && isDeleteDialogOpen
    {
      selectedPayment := Some(p);
      isDeleteDialogOpen := true;
    }

    /** `confirmDeletePayment`: close and clear; the payment stays listed. */
    method ConfirmDeletePayment()
      modifies this`isDeleteDialogOpen, this`selectedPayment
      ensures !isDeleteDialogOpen && selectedPayment == None
      ensures recentPayments == old(recentPayments)
    {
      isDeleteDialogOpen := false;
      selectedPayment := None;
    }
  }
}
