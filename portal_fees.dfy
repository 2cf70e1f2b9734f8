/** The student fee portal: a constant list of the student's fees, the
    summary figures over it, and the payment dialog's state. */
module PortalFees {
  import opened Optional
  import Seqs

  datatype StudentFee = StudentFee(id: string, feeType: string, amount: int, dueDate: string, status: string)

  const MockFeeStructure: seq<StudentFee> := [
    StudentFee("1", "Tuition Fee", 15000, "2024-01-31", "Paid"),
    StudentFee("2", "Activity Fee", 2500, "2024-02-15", "Pending"),
    StudentFee("3", "Lab Fee", 3000, "2024-02-28", "Due Soon"),
    StudentFee("4", "Transport Fee", 1800, "2024-01-15", "Overdue")
  ]

  predicate IsPaid(fee: StudentFee) { fee.status == "Paid" }

  predicate IsUnpaid(fee: StudentFee) { fee.status != "Paid" }

  predicate IsOverdue(fee: StudentFee) { fee.status == "Overdue" }

  function Amount(fee: StudentFee): int { fee.amount }

  /** Sum of the fees not exactly "Paid". */
  function TotalPending(fees: seq<StudentFee>): int
  {
    Seqs.Sum(Seqs.Filter(fees, IsUnpaid), Amount)
  }

  /** Sum of the fees exactly "Paid". */
  function TotalPaid(fees: seq<StudentFee>): int
  {
    Seqs.Sum(Seqs.Filter(fees, IsPaid), Amount)
  }

  function OverdueCount(fees: seq<StudentFee>): nat
  {
    |Seqs.Filter(fees, IsOverdue)|
  }

  /** The "pending payments" count under the pending total. */
  function PendingCount(fees: seq<StudentFee>): nat
  {
    |Seqs.Filter(fees, IsUnpaid)|
  }

  /** Pending and paid totals split the sum of all fees, and the overdue
      count never exceeds the pending count, which never exceeds the number
      of fees. */
  lemma {:induction false} TotalsPartition(fees: seq<StudentFee>)
    ensures TotalPending(fees) + TotalPaid(fees) == Seqs.Sum(fees, Amount)
    ensures OverdueCount(fees) <= PendingCount(fees) <= |fees|
  {
    Seqs.SumPartition(fees, Amount, IsUnpaid, IsPaid);
    Seqs.FilterMonotone(fees, IsOverdue, IsUnpaid);
  }

  /** The "Total Pending" card over the mock fees: three fees, 7300 taka. */
  lemma MockPending()
    ensures TotalPending(MockFeeStructure) == 7300
    ensures PendingCount(MockFeeStructure) == 3
  {
    var f := MockFeeStructure;
    MockUnpaidFees();
    var u := [f[1], f[2], f[3]];
    assert u[1..] == [f[2], f[3]] && u[1..][1..] == [f[3]] && u[1..][1..][1..] == [];
  }

  // The three unpaid mock fees, in table order.
  lemma MockUnpaidFees()
    ensures Seqs.Filter(MockFeeStructure, IsUnpaid)
            == [MockFeeStructure[1], MockFeeStructure[2], MockFeeStructure[3]]
  {
    var f := MockFeeStructure;
    assert IsPaid(f[0]) && IsUnpaid(f[1]) && IsUnpaid(f[2]) && IsUnpaid(f[3]);
    assert f[1..] == [f[1], f[2], f[3]];
  }

  /** The "Total Paid" card over the mock fees. */
  lemma MockPaid()
    ensures TotalPaid(MockFeeStructure) == 15000
  {
    var f := MockFeeStructure;
    assert IsPaid(f[0]) && !IsPaid(f[1]) && !IsPaid(f[2]) && !IsPaid(f[3]);
    assert Seqs.Filter(f, IsPaid) == [f[0]];
    assert Seqs.Sum([f[0]], Amount) == Amount(f[0]) + Seqs.Sum([f[0]][1..], Amount);
    assert [f[0]][1..] == [];
  }

  /** One mock fee is overdue. */
  lemma MockOverdue()
    ensures OverdueCount(MockFeeStructure) == 1
  {
    var f := MockFeeStructure;
    assert !IsOverdue(f[0]) && !IsOverdue(f[1]) && !IsOverdue(f[2]) && IsOverdue(f[3]);
    assert Seqs.Filter(f, IsOverdue) == [f[3]];
  }

  /** The payment dialog's part of the page state. */
  class PaymentDialog {
    var selectedFee: Option<StudentFee>
    var isPaymentDialogOpen: bool
    var paymentMethod: string
    var isProcessing: bool

    constructor()
      ensures selectedFee == None && !isPaymentDialogOpen && paymentMethod == "" && !isProcessing
    {
      selectedFee := None;
      isPaymentDialogOpen := false;
      paymentMethod := "";
      isProcessing := false;
    }

    /** `handlePayNow`: remember the fee and open the dialog. */
    method PayNow(fee: StudentFee)
      modifies this`selectedFee, this`isPaymentDialogOpen
      ensures selectedFee == Some(fee) && isPaymentDialogOpen
    {
      selectedFee := Some(fee);
      isPaymentDialogOpen := true;
    }

    /** The payment-method drop-down. */
    method SelectPaymentMethod(m: string)
      modifies this`paymentMethod
      ensures paymentMethod == m
    {
      paymentMethod := m;
    }

    /** `handleProcessPayment`: without a payment method nothing changes;
        otherwise processing starts. */
    method ProcessPayment() returns (started: bool)
      modifies this`isProcessing
      ensures started <==> paymentMethod != ""
      ensures isProcessing == (started || old(isProcessing))
    {
      if paymentMethod == "" {
        return false;
      }
      isProcessing := true;
      started := true;
    }

    /** The timer callback scheduled by a started payment: processing ends,
        the dialog closes and its selections are cleared. */
    method FinishProcessing()
      modifies this`isProcessing, this`isPaymentDialogOpen, this`paymentMethod, this`selectedFee
      ensures !isProcessing && !isPaymentDialogOpen && paymentMethod == "" && selectedFee == None
    {
      isProcessing := false;
      isPaymentDialogOpen := false;
      paymentMethod := "";
      selectedFee := None;
    }
  }
}
