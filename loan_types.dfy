/** Entities of the loan store (Loan, ScheduledRepayment, ReceivedRepayment),
    the outcome of an operation, and the integer division the service uses. */
module LoanTypes {

  /** Dates are the `Y-m-d` strings the service stores and compares. */
  type Date = string

  type CurrencyCode = string

  /** The currency every Loan row is created with (`Loan::CURRENCY_VND`). */
  const CurrencyVnd: CurrencyCode := "VND"

  /** The fixed divisor of the per-installment base amount. */
  const PeriodDivisor: int := 3

  /** Row status. Loans use `Due` and `Repaid`; installments also use `Partial`. */
  datatype Status = Due | Partial | Repaid

  /** A Loan row; `id` is its position in the loans table. */
  datatype Loan = Loan(
    id: nat,
    userId: int,
    amount: int,
    terms: int,
    outstandingAmount: int,
    currencyCode: CurrencyCode,
    processedAt: Date,
    status: Status)

  /** A ScheduledRepayment row (one installment of a loan). */
  datatype ScheduledRepayment = ScheduledRepayment(
    loanId: nat,
    amount: int,
    outstandingAmount: int,
    currencyCode: CurrencyCode,
    dueDate: Date,
    status: Status)

  /** A ReceivedRepayment row: an append-only record of one payment. */
  datatype ReceivedRepayment = ReceivedRepayment(
    loanId: nat,
    amount: int,
    currencyCode: CurrencyCode,
    receivedAt: Date)

  /** The three tables of the store. */
  datatype Tables = Tables(
    loans: seq<Loan>,
    scheduled: seq<ScheduledRepayment>,
    received: seq<ReceivedRepayment>)

  /** Why an operation was rolled back: no Due installment on the payment date
      (the update of a null row), or a failed write of the store. */
  datatype Error = InstallmentNotFound | StoreFailure

  datatype Result<T> = Ok(value: T) | Err(error: Error)

  datatype Option<T> = None | Some(value: T)

  /** Every loan sits at the index of its id, and every installment and every
      payment refers to an existing loan. */
  predicate WellFormed(t: Tables) {
    (forall i :: 0 <= i < |t.loans| ==> t.loans[i].id == i) &&
    (forall i :: 0 <= i < |t.scheduled| ==> t.scheduled[i].loanId < |t.loans|) &&
    (forall i :: 0 <= i < |t.received| ==> t.received[i].loanId < |t.loans|)
  }

  /** PHP's `intdiv`: the quotient truncated toward zero (Dafny's `/` floors
      for a positive divisor, which differs on a negative dividend). */
  function IntDiv(a: int, d: int): (q: int)
    requires d > 0
    ensures a >= 0 ==> 0 <= a - q * d < d
    ensures a < 0 ==> -d < a - q * d <= 0
  {
    if a >= 0 then a / d else -((-a) / d)
  }

  /** The per-installment base amount of a loan of `amount`. */
  function PerMonth(amount: int): (base: int)
    ensures amount >= 0 ==> 0 <= base && 0 <= amount - PeriodDivisor * base < PeriodDivisor
    ensures amount < 0 ==> base <= 0 && -PeriodDivisor < amount - PeriodDivisor * base <= 0
  {
    IntDiv(amount, PeriodDivisor)
  }
}
