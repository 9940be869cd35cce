/** What `createLoan` writes: the Loan row and its installment schedule,
    with the properties of that schedule. */
module Schedule {
  import opened LoanTypes

  /** The Loan row `createLoan` inserts: the caller's amount and terms, fully
      outstanding, Due, and always in VND whatever currency was asked for. */
  function NewLoan(id: nat, userId: int, amount: int, terms: int, processedAt: Date): (loan: Loan)
    ensures loan.id == id && loan.userId == userId && loan.amount == amount && loan.terms == terms
    ensures loan.processedAt == processedAt
    ensures loan.outstandingAmount == loan.amount && loan.status == Due && loan.currencyCode == CurrencyVnd
  {
    Loan(id, userId, amount, terms, amount, CurrencyVnd, processedAt, Due)
  }

  /** Installment `i` (counted from 1): the base amount, except that the
      installment numbered `terms` also takes the rounding remainder. */
  function Installment(loanId: nat, amount: int, currencyCode: CurrencyCode, terms: int,
                       processedAt: Date, addMonths: (Date, nat) -> Date, i: nat): (row: ScheduledRepayment)
    ensures row.loanId == loanId && row.currencyCode == currencyCode && row.status == Due
    ensures row.outstandingAmount == row.amount && row.dueDate == addMonths(processedAt, i)
    ensures i != terms ==> row.amount == PerMonth(amount)
    ensures i == terms ==> row.amount == amount - PerMonth(amount) * (terms - 1)
  {
    var perMonth := PerMonth(amount);
    var remaining := amount - perMonth * terms;
    var due := if i == terms then perMonth + remaining else perMonth;
    ScheduledRepayment(loanId, due, due, currencyCode, addMonths(processedAt, i), Due)
  }

  /** The first `n` installments, in the order the loop creates them. */
  function Installments(loanId: nat, amount: int, currencyCode: CurrencyCode, terms: int,
                        processedAt: Date, addMonths: (Date, nat) -> Date, n: nat): (rows: seq<ScheduledRepayment>)
    ensures |rows| == n
    ensures forall k :: 0 <= k < n ==>
      rows[k].loanId == loanId && rows[k].currencyCode == currencyCode &&
      rows[k].status == Due && rows[k].outstandingAmount == rows[k].amount &&
      rows[k].dueDate == addMonths(processedAt, k + 1) &&
      rows[k].amount == (if k + 1 == terms then amount - PerMonth(amount) * (terms - 1) else PerMonth(amount))
  {
    if n == 0 then []
    else
      Installments(loanId, amount, currencyCode, terms, processedAt, addMonths, n - 1) +
      [Installment(loanId, amount, currencyCode, terms, processedAt, addMonths, n)]
  }

  /** Number of installments the loop creates: `terms`, none when `terms <= 0`. */
  function TermCount(terms: int): (n: nat)
    ensures n == 0 <==> terms <= 0
    ensures n > 0 ==> n == terms
  {
    if terms > 0 then terms else 0
  }

  /** The whole schedule of a new loan. */
  function LoanSchedule(loanId: nat, amount: int, currencyCode: CurrencyCode, terms: int,
                    processedAt: Date, addMonths: (Date, nat) -> Date): (rows: seq<ScheduledRepayment>)
    ensures terms <= 0 ==> rows == []
    ensures terms > 0 ==> |rows| == terms && rows[terms - 1].amount == amount - PerMonth(amount) * (terms - 1)
    ensures forall k :: 0 <= k < |rows| - 1 ==> rows[k].amount == PerMonth(amount)
    ensures forall k :: 0 <= k < |rows| ==>
      rows[k].loanId == loanId && rows[k].currencyCode == currencyCode && rows[k].status == Due &&
      rows[k].outstandingAmount == rows[k].amount && rows[k].dueDate == addMonths(processedAt, k + 1)
  {
    Installments(loanId, amount, currencyCode, terms, processedAt, addMonths, TermCount(terms))
  }

  /** The store after a successful `createLoan`. */
  function Create(t: Tables, userId: int, amount: int, currencyCode: CurrencyCode, terms: int,
                  processedAt: Date, addMonths: (Date, nat) -> Date): (t': Tables)
    ensures WellFormed(t) ==> WellFormed(t')
  {
    var id := |t.loans|;
    Tables(t.loans + [NewLoan(id, userId, amount, terms, processedAt)],
           t.scheduled + LoanSchedule(id, amount, currencyCode, terms, processedAt, addMonths),
           t.received)
  }

  /** Sum of the installment amounts of loan `loanId` in `rows`. */
  function LoanTotal(rows: seq<ScheduledRepayment>, loanId: nat): int {
    if rows == [] then 0
    else (if rows[0].loanId == loanId then rows[0].amount else 0) + LoanTotal(rows[1..], loanId)
  }

  lemma {:induction false} LoanTotalAppend(a: seq<ScheduledRepayment>, b: seq<ScheduledRepayment>, loanId: nat)
    ensures LoanTotal(a + b, loanId) == LoanTotal(a, loanId) + LoanTotal(b, loanId)
  {
    if a == [] {
      assert a + b == b;
    } else {
      assert (a + b)[1..] == a[1..] + b;
      LoanTotalAppend(a[1..], b, loanId);
    }
  }

  lemma {:induction false} LoanTotalOfOtherLoans(rows: seq<ScheduledRepayment>, loanId: nat)
    requires forall i :: 0 <= i < |rows| ==> rows[i].loanId != loanId
    ensures LoanTotal(rows, loanId) == 0
  {
    if rows != [] {
      LoanTotalOfOtherLoans(rows[1..], loanId);
    }
  }

  /** Installments before the last all carry the base amount. */
  lemma {:induction false} InstallmentsTotal(loanId: nat, amount: int, currencyCode: CurrencyCode, terms: int,
                                             processedAt: Date, addMonths: (Date, nat) -> Date, n: nat)
    requires n < terms
    ensures LoanTotal(Installments(loanId, amount, currencyCode, terms, processedAt, addMonths, n), loanId)
            == n * PerMonth(amount)
  {
    if n > 0 {
      var front := Installments(loanId, amount, currencyCode, terms, processedAt, addMonths, n - 1);
      var last := Installment(loanId, amount, currencyCode, terms, processedAt, addMonths, n);
      InstallmentsTotal(loanId, amount, currencyCode, terms, processedAt, addMonths, n - 1);
      LoanTotalAppend(front, [last], loanId);
      assert LoanTotal([last], loanId) == PerMonth(amount);
    }
  }

  /** The sum invariant: the installments of a loan with at least one term add
      up to exactly its amount, the last one absorbing the rounding remainder. */
  lemma ScheduleTotal(loanId: nat, amount: int, currencyCode: CurrencyCode, terms: int,
                      processedAt: Date, addMonths: (Date, nat) -> Date)
    requires terms >= 1
    ensures LoanTotal(LoanSchedule(loanId, amount, currencyCode, terms, processedAt, addMonths), loanId) == amount
  {
    var front := Installments(loanId, amount, currencyCode, terms, processedAt, addMonths, terms - 1);
    var last := Installment(loanId, amount, currencyCode, terms, processedAt, addMonths, terms);
    InstallmentsTotal(loanId, amount, currencyCode, terms, processedAt, addMonths, terms - 1);
    LoanTotalAppend(front, [last], loanId);
    var p := PerMonth(amount);
    assert LoanTotal([last], loanId) == p + (amount - p * terms);
    assert (terms - 1) * p + p == p * terms;
  }

  /** Creating a loan gives the new loan a schedule summing to its amount and
      leaves the schedule total of every existing loan as it was. */
  lemma CreateBalances(t: Tables, userId: int, amount: int, currencyCode: CurrencyCode, terms: int,
                       processedAt: Date, addMonths: (Date, nat) -> Date)
    requires WellFormed(t) && terms >= 1
    ensures var t' := Create(t, userId, amount, currencyCode, terms, processedAt, addMonths);
            LoanTotal(t'.scheduled, |t.loans|) == amount &&
            forall id :: 0 <= id < |t.loans| ==> LoanTotal(t'.scheduled, id) == LoanTotal(t.scheduled, id)
  {
    var id := |t.loans|;
    var rows := LoanSchedule(id, amount, currencyCode, terms, processedAt, addMonths);
    LoanTotalAppend(t.scheduled, rows, id);
    LoanTotalOfOtherLoans(t.scheduled, id);
    ScheduleTotal(id, amount, currencyCode, terms, processedAt, addMonths);
    forall other | 0 <= other < id
      ensures LoanTotal(t.scheduled + rows, other) == LoanTotal(t.scheduled, other)
    {
      LoanTotalAppend(t.scheduled, rows, other);
      LoanTotalOfOtherLoans(rows, other);
    }
  }

  /** With three terms the schedule is `[b, b, amount - 2 * b]` for the
      truncated base `b`, which is `[b, b, b + amount % 3]` for a non-negative
      amount (for -1000: -333, -333, -334). */
  lemma ThreeTermSchedule(loanId: nat, amount: int, currencyCode: CurrencyCode,
                          processedAt: Date, addMonths: (Date, nat) -> Date)
    ensures var rows := LoanSchedule(loanId, amount, currencyCode, 3, processedAt, addMonths);
            |rows| == 3 &&
            rows[0].amount == PerMonth(amount) && rows[1].amount == PerMonth(amount) &&
            rows[2].amount == amount - 2 * PerMonth(amount) &&
            (amount >= 0 ==> rows[0].amount == amount / 3 && rows[2].amount == amount / 3 + amount % 3) &&
            (amount == -1000 ==> rows[0].amount == -333 && rows[2].amount == -334)
  {
  }

  /** A 1000 loan over three terms is scheduled as 333, 333, 334. */
  lemma ThousandOverThreeTerms(loanId: nat, currencyCode: CurrencyCode,
                               processedAt: Date, addMonths: (Date, nat) -> Date)
    ensures var rows := LoanSchedule(loanId, 1000, currencyCode, 3, processedAt, addMonths);
            |rows| == 3 && rows[0].amount == 333 && rows[1].amount == 333 && rows[2].amount == 334
  {
  }

  /** Because the divisor stays 3 whatever `terms` is, a loan of 3 over five
      terms gets installments 1, 1, 1, 1 and -1. */
  lemma NegativeLastInstallment(loanId: nat, currencyCode: CurrencyCode,
                                processedAt: Date, addMonths: (Date, nat) -> Date)
    ensures var rows := LoanSchedule(loanId, 3, currencyCode, 5, processedAt, addMonths);
            |rows| == 5 && rows[0].amount == 1 && rows[1].amount == 1 && rows[2].amount == 1 &&
            rows[3].amount == 1 && rows[4].amount == -1
  {
  }
}
