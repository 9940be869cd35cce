/** What `repayLoan` does to the store: the `lastRepay` query, the installment
    it pays, the overpayment rollover of `partialPayment`, and their properties. */
module Repayment {
  import opened LoanTypes
  import opened Schedule

  /** `row` is a still-Due installment of loan `loanId`. */
  predicate IsDue(row: ScheduledRepayment, loanId: nat) {
    row.loanId == loanId && row.status == Due
  }

  /** `row` is what the query selects: a Due installment of the loan, due on
      `date` when a date is given. */
  predicate Selects(row: ScheduledRepayment, loanId: nat, date: Option<Date>) {
    IsDue(row, loanId) && (date.Some? ==> row.dueDate == date.value)
  }

  /** Row `k` is the first row the query selects. */
  predicate IsFirst(rows: seq<ScheduledRepayment>, k: int, loanId: nat, date: Option<Date>) {
    0 <= k < |rows| && Selects(rows[k], loanId, date) &&
    forall j :: 0 <= j < k ==> !Selects(rows[j], loanId, date)
  }

  /** Row `j` is the first Due installment of the loan once row `k` is left aside. */
  predicate IsNextDue(rows: seq<ScheduledRepayment>, j: int, k: int, loanId: nat) {
    0 <= j < |rows| && j != k && IsDue(rows[j], loanId) &&
    forall i :: 0 <= i < j && i != k ==> !IsDue(rows[i], loanId)
  }

  /** At most one installment of the loan is still Due. */
  predicate AtMostOneDue(rows: seq<ScheduledRepayment>, loanId: nat) {
    forall i, j :: 0 <= i < j < |rows| && IsDue(rows[i], loanId) ==> !IsDue(rows[j], loanId)
  }

  /** `->where(...)->first()`: the index of the first selected row, if any. */
  function FirstIndex(rows: seq<ScheduledRepayment>, loanId: nat, date: Option<Date>): (r: Option<nat>)
    ensures r.Some? ==> IsFirst(rows, r.value, loanId, date)
    ensures r.None? ==> forall j :: 0 <= j < |rows| ==> !Selects(rows[j], loanId, date)
  {
    if rows == [] then None
    else if Selects(rows[0], loanId, date) then Some(0)
    else match FirstIndex(rows[1..], loanId, date)
      case None => None
      case Some(k) => Some(k + 1)
  }

  /** The number of Due installments of the loan. */
  function CountDue(rows: seq<ScheduledRepayment>, loanId: nat): (n: nat)
    ensures n <= |rows|
    ensures n == 0 <==> forall i :: 0 <= i < |rows| ==> !IsDue(rows[i], loanId)
  {
    if rows == [] then 0
    else (if IsDue(rows[0], loanId) then 1 else 0) + CountDue(rows[1..], loanId)
  }

  lemma {:induction false} CountDueAtMostOne(rows: seq<ScheduledRepayment>, loanId: nat)
    ensures CountDue(rows, loanId) <= 1 <==> AtMostOneDue(rows, loanId)
  {
    if rows != [] {
      var tail := rows[1..];
      CountDueAtMostOne(tail, loanId);
      if IsDue(rows[0], loanId) {
        if CountDue(rows, loanId) <= 1 {
          forall i, j | 0 <= i < j < |rows| && IsDue(rows[i], loanId)
            ensures !IsDue(rows[j], loanId)
          {
            assert rows[j] == tail[j - 1];
          }
        } else {
          var j :| 0 <= j < |tail| && IsDue(tail[j], loanId);
          assert rows[j + 1] == tail[j];
        }
      } else {
        if AtMostOneDue(rows, loanId) {
          forall i, j | 0 <= i < j < |tail| && IsDue(tail[i], loanId)
            ensures !IsDue(tail[j], loanId)
          {
            assert tail[i] == rows[i + 1] && tail[j] == rows[j + 1];
          }
        } else {
          var i, j :| 0 <= i < j < |rows| && IsDue(rows[i], loanId) && IsDue(rows[j], loanId);
          assert tail[i - 1] == rows[i] && tail[j - 1] == rows[j];
        }
      }
    }
  }

  /** `lastRepay`: counts the loan's Due installments and answers whether
      there is at most one. */
  function LastRepay(rows: seq<ScheduledRepayment>, loanId: nat): (last: bool)
    ensures last <==> AtMostOneDue(rows, loanId)
  {
    CountDueAtMostOne(rows, loanId);
    CountDue(rows, loanId) <= 1
  }

  /** Taking one Due installment of the loan out of Due lowers the count by one. */
  lemma {:induction false} CountDueSettle(rows: seq<ScheduledRepayment>, loanId: nat, i: nat, row: ScheduledRepayment)
    requires i < |rows| && IsDue(rows[i], loanId) && !IsDue(row, loanId)
    ensures CountDue(rows[i := row], loanId) == CountDue(rows, loanId) - 1
  {
    if i > 0 {
      CountDueSettle(rows[1..], loanId, i - 1, row);
      assert rows[i := row][1..] == rows[1..][i - 1 := row];
    } else {
      assert rows[i := row][1..] == rows[1..];
    }
  }

  /** The loan row after `repayLoan` (`$loan->update`). The balance is the
      loan's amount less this one payment, not its running outstanding amount. */
  function SettledLoan(loan: Loan, last: bool, received: int): (settled: Loan)
    ensures settled.(outstandingAmount := loan.outstandingAmount, status := loan.status) == loan
    ensures settled.status == Repaid <==> last
    ensures last ==> settled.outstandingAmount == 0
    ensures !last ==> settled.outstandingAmount + received == loan.amount && settled.status == Due
  {
    loan.(outstandingAmount := if last then 0 else loan.amount - received,
          status := if last then Repaid else Due)
  }

  /** The paid installment: judged against the nominal base `perMonth`, not
      against the installment's own outstanding amount. */
  function PaidInstallment(row: ScheduledRepayment, perMonth: int, received: int): (paid: ScheduledRepayment)
    ensures paid.(outstandingAmount := row.outstandingAmount, status := row.status) == row
    ensures paid.status != Due
    ensures paid.status == Partial <==> received < perMonth
    ensures paid.outstandingAmount == 0 <==> received >= perMonth
    ensures received <= perMonth ==> paid.outstandingAmount + received == perMonth
  {
    row.(outstandingAmount := if received <= perMonth then perMonth - received else 0,
         status := if received < perMonth then Partial else Repaid)
  }

  /** `partialPayment`'s write: the first Due installment of the loan, if any,
      gets the excess as its outstanding amount (replacing, not reducing, it). */
  function RollOver(rows: seq<ScheduledRepayment>, loanId: nat, perMonth: int, received: int): (rows': seq<ScheduledRepayment>)
    ensures |rows'| == |rows|
    ensures forall j :: 0 <= j < |rows| && rows'[j] != rows[j] ==> IsFirst(rows, j, loanId, None)
    ensures forall j :: 0 <= j < |rows| && IsFirst(rows, j, loanId, None) ==>
              rows'[j] == rows[j].(outstandingAmount := received - perMonth, status := Partial)
  {
    match FirstIndex(rows, loanId, None)
    case None => rows
    case Some(j) => rows[j := rows[j].(outstandingAmount := received - perMonth, status := Partial)]
  }

  /** The installments after paying row `k` and, on an overpayment, rolling
      the excess onto the loan's first installment still Due after that. */
  function Settle(rows: seq<ScheduledRepayment>, loanId: nat, perMonth: int, received: int, k: nat): (rows': seq<ScheduledRepayment>)
    requires k < |rows|
    ensures |rows'| == |rows| && rows'[k] == PaidInstallment(rows[k], perMonth, received)
    ensures forall j :: 0 <= j < |rows| && j != k && rows'[j] != rows[j] ==>
              received > perMonth && IsDue(rows[j], loanId)
  {
    var paid := rows[k := PaidInstallment(rows[k], perMonth, received)];
    if received > perMonth then RollOver(paid, loanId, perMonth, received) else paid
  }

  /** The store after `repayLoan`, or the error that rolls it back. */
  function Repay(t: Tables, loanId: nat, received: int, currencyCode: CurrencyCode, receivedAt: Date): (r: Result<Tables>)
    requires loanId < |t.loans|
    ensures r.Err? <==> forall i :: 0 <= i < |t.scheduled| ==> !Selects(t.scheduled[i], loanId, Some(receivedAt))
    ensures r.Err? ==> r.error == InstallmentNotFound
    ensures r.Ok? ==> r.value.received == t.received + [ReceivedRepayment(loanId, received, currencyCode, receivedAt)]
    ensures r.Ok? ==> |r.value.loans| == |t.loans| && |r.value.scheduled| == |t.scheduled|
    ensures r.Ok? && WellFormed(t) ==> WellFormed(r.value)
  {
    var loan := t.loans[loanId];
    var perMonth := PerMonth(loan.amount);
    var loans := t.loans[loanId := SettledLoan(loan, LastRepay(t.scheduled, loanId), received)];
    match FirstIndex(t.scheduled, loanId, Some(receivedAt))
    case None => Err(InstallmentNotFound)
    case Some(k) =>
      Ok(Tables(loans, Settle(t.scheduled, loanId, perMonth, received, k),
                t.received + [ReceivedRepayment(loanId, received, currencyCode, receivedAt)]))
  }

  /** The number of store writes a `repayLoan` issues: the loan update, then
      (when the installment is found) the installment, the rollover if there is
      one, and the payment record. */
  function RepayWrites(t: Tables, loanId: nat, received: int, receivedAt: Date): (n: nat)
    requires loanId < |t.loans|
    ensures n == 1 <==> forall i :: 0 <= i < |t.scheduled| ==> !Selects(t.scheduled[i], loanId, Some(receivedAt))
    ensures n == 1 || n == 3 || n == 4
    ensures n == 4 <==>
              n != 1 && received > PerMonth(t.loans[loanId].amount) &&
              exists j :: 0 <= j < |t.scheduled| && j != FirstIndex(t.scheduled, loanId, Some(receivedAt)).value &&
                          IsDue(t.scheduled[j], loanId)
  {
    var perMonth := PerMonth(t.loans[loanId].amount);
    match FirstIndex(t.scheduled, loanId, Some(receivedAt))
    case None => 1
    case Some(k) =>
      var paid := t.scheduled[k := PaidInstallment(t.scheduled[k], perMonth, received)];
      assert forall j :: 0 <= j < |paid| && j != k ==> paid[j] == t.scheduled[j];
      if received > perMonth && FirstIndex(paid, loanId, None).Some? then 4 else 3
  }

  /** `Repay` and `RepayWrites` once the paid installment `k` is known. */
  lemma RepayAt(t: Tables, loanId: nat, received: int, currencyCode: CurrencyCode, receivedAt: Date, k: nat)
    requires loanId < |t.loans| && FirstIndex(t.scheduled, loanId, Some(receivedAt)) == Some(k)
    ensures var perMonth := PerMonth(t.loans[loanId].amount);
            var paid := t.scheduled[k := PaidInstallment(t.scheduled[k], perMonth, received)];
            Repay(t, loanId, received, currencyCode, receivedAt) ==
              Ok(Tables(t.loans[loanId := SettledLoan(t.loans[loanId], LastRepay(t.scheduled, loanId), received)],
                        Settle(t.scheduled, loanId, perMonth, received, k),
                        t.received + [ReceivedRepayment(loanId, received, currencyCode, receivedAt)])) &&
            RepayWrites(t, loanId, received, receivedAt) ==
              if received > perMonth && FirstIndex(paid, loanId, None).Some? then 4 else 3
  {
  }

  /** Paying the Due installment `k`: it becomes Partial owing `perMonth -
      received` below the base, otherwise Repaid owing 0; on an overpayment the
      next Due installment of the loan, if any, becomes Partial owing the
      excess; every other row stays as it was. */
  lemma SettleRows(rows: seq<ScheduledRepayment>, loanId: nat, perMonth: int, received: int, k: nat)
    requires k < |rows| && IsDue(rows[k], loanId)
    ensures var rows' := Settle(rows, loanId, perMonth, received, k);
            |rows'| == |rows| &&
            (received < perMonth ==> rows'[k] == rows[k].(outstandingAmount := perMonth - received, status := Partial)) &&
            (received >= perMonth ==> rows'[k] == rows[k].(outstandingAmount := 0, status := Repaid)) &&
            forall j :: 0 <= j < |rows| && j != k ==>
              rows'[j] == if received > perMonth && IsNextDue(rows, j, k, loanId)
                          then rows[j].(outstandingAmount := received - perMonth, status := Partial)
                          else rows[j]
  {
  }

  /** Paying the Due installment `k` lowers the loan's number of Due
      installments (by one, or by two when the excess rolls over). */
  lemma SettleReducesDue(rows: seq<ScheduledRepayment>, loanId: nat, perMonth: int, received: int, k: nat)
    requires k < |rows| && IsDue(rows[k], loanId)
    ensures CountDue(Settle(rows, loanId, perMonth, received, k), loanId) < CountDue(rows, loanId)
  {
    var paidRow := PaidInstallment(rows[k], perMonth, received);
    var paid := rows[k := paidRow];
    CountDueSettle(rows, loanId, k, paidRow);
    if received > perMonth {
      match FirstIndex(paid, loanId, None)
      case None =>
      case Some(m) =>
        CountDueSettle(paid, loanId, m, paid[m].(outstandingAmount := received - perMonth, status := Partial));
    }
  }

  /** The loan row after a successful `repayLoan`: settled to 0 and Repaid when
      at most one installment was still Due beforehand, otherwise its amount
      less this payment and still Due. No other loan changes. */
  lemma RepayUpdatesLoan(t: Tables, loanId: nat, received: int, currencyCode: CurrencyCode, receivedAt: Date)
    requires loanId < |t.loans|
    requires Repay(t, loanId, received, currencyCode, receivedAt).Ok?
    ensures var loans := Repay(t, loanId, received, currencyCode, receivedAt).value.loans;
            var last := AtMostOneDue(t.scheduled, loanId);
            loans == t.loans[loanId := t.loans[loanId].(
              outstandingAmount := if last then 0 else t.loans[loanId].amount - received,
              status := if last then Repaid else Due)]
  {
  }

  /** Every installment after a successful `repayLoan`, given the first Due
      installment `k` due on the payment date: `k` is paid against the base
      amount (Partial below it, Repaid at or above it); on an overpayment the
      next Due installment of the loan, if any, gets the excess as its
      outstanding amount and becomes Partial; every other row is unchanged. */
  lemma RepayInstallments(t: Tables, loanId: nat, received: int, currencyCode: CurrencyCode,
                          receivedAt: Date, k: nat)
    requires loanId < |t.loans|
    requires IsFirst(t.scheduled, k, loanId, Some(receivedAt))
    ensures Repay(t, loanId, received, currencyCode, receivedAt).Ok?
    ensures var rows := Repay(t, loanId, received, currencyCode, receivedAt).value.scheduled;
            var perMonth := PerMonth(t.loans[loanId].amount);
            |rows| == |t.scheduled| &&
            (received < perMonth ==> rows[k] == t.scheduled[k].(outstandingAmount := perMonth - received, status := Partial)) &&
            (received >= perMonth ==> rows[k] == t.scheduled[k].(outstandingAmount := 0, status := Repaid)) &&
            forall j :: 0 <= j < |rows| && j != k ==>
              rows[j] == if received > perMonth && IsNextDue(t.scheduled, j, k, loanId)
                         then t.scheduled[j].(outstandingAmount := received - perMonth, status := Partial)
                         else t.scheduled[j]
  {
    RepayAt(t, loanId, received, currencyCode, receivedAt, k);
    SettleRows(t.scheduled, loanId, PerMonth(t.loans[loanId].amount), received, k);
  }

  /** A successful `repayLoan` takes the paid installment, and the rolled-over
      one if any, out of Due; any row it changes was a Due installment of this
      loan and keeps its loan, amount, currency and due date. */
  lemma RepayOnlySettlesDue(t: Tables, loanId: nat, received: int, currencyCode: CurrencyCode, receivedAt: Date)
    requires loanId < |t.loans|
    requires Repay(t, loanId, received, currencyCode, receivedAt).Ok?
    ensures var rows := Repay(t, loanId, received, currencyCode, receivedAt).value.scheduled;
            forall i :: 0 <= i < |rows| && rows[i] != t.scheduled[i] ==>
              IsDue(t.scheduled[i], loanId) && !IsDue(rows[i], loanId) &&
              rows[i].loanId == t.scheduled[i].loanId && rows[i].amount == t.scheduled[i].amount &&
              rows[i].currencyCode == t.scheduled[i].currencyCode && rows[i].dueDate == t.scheduled[i].dueDate
  {
    RepayInstallments(t, loanId, received, currencyCode, receivedAt, FirstIndex(t.scheduled, loanId, Some(receivedAt)).value);
  }

  /** Every successful `repayLoan` lowers the number of the loan's Due
      installments, so at most that many payments can succeed in a row. */
  lemma RepayReducesDue(t: Tables, loanId: nat, received: int, currencyCode: CurrencyCode, receivedAt: Date)
    requires loanId < |t.loans|
    requires Repay(t, loanId, received, currencyCode, receivedAt).Ok?
    ensures CountDue(Repay(t, loanId, received, currencyCode, receivedAt).value.scheduled, loanId)
            < CountDue(t.scheduled, loanId)
  {
    var k := FirstIndex(t.scheduled, loanId, Some(receivedAt)).value;
    RepayAt(t, loanId, received, currencyCode, receivedAt, k);
    SettleReducesDue(t.scheduled, loanId, PerMonth(t.loans[loanId].amount), received, k);
  }

  lemma {:induction false} LoanTotalPointwise(a: seq<ScheduledRepayment>, b: seq<ScheduledRepayment>, loanId: nat)
    requires |a| == |b|
    requires forall i :: 0 <= i < |a| ==> a[i].loanId == b[i].loanId && a[i].amount == b[i].amount
    ensures LoanTotal(a, loanId) == LoanTotal(b, loanId)
  {
    if a != [] {
      LoanTotalPointwise(a[1..], b[1..], loanId);
    }
  }

  /** Repayments never touch installment amounts: the schedule total of every
      loan, and so the sum invariant set up by `createLoan`, survives them. */
  lemma RepayKeepsTotals(t: Tables, loanId: nat, received: int, currencyCode: CurrencyCode, receivedAt: Date, id: nat)
    requires loanId < |t.loans|
    requires Repay(t, loanId, received, currencyCode, receivedAt).Ok?
    ensures LoanTotal(Repay(t, loanId, received, currencyCode, receivedAt).value.scheduled, id) == LoanTotal(t.scheduled, id)
  {
    RepayOnlySettlesDue(t, loanId, received, currencyCode, receivedAt);
    LoanTotalPointwise(Repay(t, loanId, received, currencyCode, receivedAt).value.scheduled, t.scheduled, id);
  }
}
