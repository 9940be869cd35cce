/** Worked payments on a 900 loan over three terms, showing the service's
    behaviour as written: the loan balance is not cumulative, an overpayment
    overwrites the next installment's balance, and the loan is settled while
    an installment is still Partial. */
module Scenarios {
  import opened LoanTypes
  import opened Schedule
  import opened Repayment
  import opened Persistence
  import opened LoanService

  /** A stand-in for `strtotime("+i months")` from 2022-01-15. */
  function Calendar(processedAt: Date, months: nat): Date {
    if months == 1 then "2022-02-15"
    else if months == 2 then "2022-03-15"
    else "2022-04-15"
  }

  /** A store holding one loan of 900 over three terms, requested in USD:
      installments of 300. */
  function Issued(): Tables {
    Create(Tables([], [], []), 7, 900, "USD", 3, "2022-01-15", Calendar)
  }

  /** The loan is recorded in VND whatever currency was asked for; its
      installments carry the requested one. */
  lemma IssuedSchedule()
    ensures var t := Issued();
            |t.loans| == 1 && t.loans[0] == Loan(0, 7, 900, 3, 900, CurrencyVnd, "2022-01-15", Due) &&
            |t.scheduled| == 3 &&
            t.scheduled[0] == ScheduledRepayment(0, 300, 300, "USD", "2022-02-15", Due) &&
            t.scheduled[1] == ScheduledRepayment(0, 300, 300, "USD", "2022-03-15", Due) &&
            t.scheduled[2] == ScheduledRepayment(0, 300, 300, "USD", "2022-04-15", Due)
  {
  }

  /** Paying 100 on the first installment leaves it Partial with 200 owed and
      the loan Due with 800 owed. */
  lemma Underpayment()
    ensures var r := Repay(Issued(), 0, 100, "VND", "2022-02-15");
            r.Ok? &&
            r.value.scheduled[0].outstandingAmount == 200 && r.value.scheduled[0].status == Partial &&
            r.value.loans[0].outstandingAmount == 800 && r.value.loans[0].status == Due
  {
  }

  /** Paying 400 on the first installment repays it and sets the second to
      Partial with 100 owed: the excess replaces its balance of 300 instead of
      reducing it to 200. */
  lemma OverpaymentOverwrites()
    ensures var r := Repay(Issued(), 0, 400, "VND", "2022-02-15");
            r.Ok? &&
            r.value.scheduled[0].outstandingAmount == 0 && r.value.scheduled[0].status == Repaid &&
            r.value.scheduled[1].outstandingAmount == 100 && r.value.scheduled[1].status == Partial &&
            r.value.scheduled[2] == Issued().scheduled[2]
  {
  }

  /** The rollover goes to the loan's first Due installment, which can come
      before the paid one: paying 400 on the second installment repays it and
      leaves the first Partial owing 100, the third untouched. */
  lemma RolloverOntoEarlier()
    ensures var r := Repay(Issued(), 0, 400, "VND", "2022-03-15");
            r.Ok? &&
            r.value.scheduled[0].outstandingAmount == 100 && r.value.scheduled[0].status == Partial &&
            r.value.scheduled[1].outstandingAmount == 0 && r.value.scheduled[1].status == Repaid &&
            r.value.scheduled[2] == Issued().scheduled[2]
  {
  }

  /** Two payments of 100 leave the loan at 800 owed, not 700: each payment
      sets the balance to the loan amount less that payment alone. */
  lemma BalanceNotCumulative()
    ensures var r1 := Repay(Issued(), 0, 100, "VND", "2022-02-15");
            r1.Ok? &&
            var r2 := Repay(r1.value, 0, 100, "VND", "2022-03-15");
            r2.Ok? && r2.value.loans[0].outstandingAmount == 800
  {
  }

  /** Paying the first two installments in full and 100 on the third settles
      the loan (only one installment was still Due) although the third
      installment stays Partial with 200 owed. */
  lemma SettledWhileInstallmentPartial()
    ensures var r1 := Repay(Issued(), 0, 300, "VND", "2022-02-15");
            r1.Ok? &&
            var r2 := Repay(r1.value, 0, 300, "VND", "2022-03-15");
            r2.Ok? &&
            var r3 := Repay(r2.value, 0, 100, "VND", "2022-04-15");
            r3.Ok? &&
            r3.value.loans[0].outstandingAmount == 0 && r3.value.loans[0].status == Repaid &&
            r3.value.scheduled[2].outstandingAmount == 200 && r3.value.scheduled[2].status == Partial
  {
    var t := Issued();
    var r1 := Repay(t, 0, 300, "VND", "2022-02-15");
    assert r1.value.scheduled == t.scheduled[0 := t.scheduled[0].(outstandingAmount := 0, status := Repaid)];
    var r2 := Repay(r1.value, 0, 300, "VND", "2022-03-15");
    assert r2.value.scheduled == r1.value.scheduled[1 := t.scheduled[1].(outstandingAmount := 0, status := Repaid)];
    assert LastRepay(r2.value.scheduled, 0);
  }

  /** A payment on a date no Due installment falls on is refused. */
  lemma UnknownDateRefused()
    ensures Repay(Issued(), 0, 300, "VND", "2022-02-16") == Err(InstallmentNotFound)
  {
  }

  /** A Partial installment is never selected again: paying 100 and then the
      remaining 200 on the same date refuses the second payment. */
  lemma PartialNotPayable()
    ensures var r1 := Repay(Issued(), 0, 100, "VND", "2022-02-15");
            r1.Ok? && r1.value.scheduled[0].status == Partial &&
            Repay(r1.value, 0, 200, "VND", "2022-02-15") == Err(InstallmentNotFound)
  {
  }

  /** The loan's outstanding amount can rise: paying 300 leaves 600 owed, and
      then paying 100 leaves 800 owed. */
  lemma OutstandingRises()
    ensures var r1 := Repay(Issued(), 0, 300, "VND", "2022-02-15");
            r1.Ok? && r1.value.loans[0].outstandingAmount == 600 &&
            var r2 := Repay(r1.value, 0, 100, "VND", "2022-03-15");
            r2.Ok? && r2.value.loans[0].outstandingAmount == 800
  {
  }

  /** An installment can owe more than its amount: paying 1000 on the first
      leaves the second owing 700 against an amount of 300. */
  lemma InstallmentOwesMoreThanAmount()
    ensures var r := Repay(Issued(), 0, 1000, "VND", "2022-02-15");
            r.Ok? && r.value.scheduled[1].amount == 300 && r.value.scheduled[1].outstandingAmount == 700 &&
            r.value.scheduled[1].status == Partial
  {
  }

  /** A store holding one loan of 900 over two terms: installments of 300 and
      600, since the base is a third of the amount whatever the term count. */
  function IssuedTwoTerms(): Tables {
    Create(Tables([], [], []), 7, 900, "VND", 2, "2022-01-15", Calendar)
  }

  /** Paying 400 on the first installment, of 300, is an overpayment with a
      Due installment left to roll onto: the payment goes through with four
      writes. */
  lemma TwoTermOverpayment()
    ensures var t := IssuedTwoTerms();
            |t.loans| == 1 && |t.scheduled| == 2 &&
            t.scheduled[0].amount == 300 && t.scheduled[1].amount == 600 &&
            Repay(t, 0, 400, "VND", "2022-02-15").Ok? && RepayWrites(t, 0, 400, "2022-02-15") == 4
  {
    var t := IssuedTwoTerms();
    assert |t.loans| == 1 && t.loans[0].amount == 900 && |t.scheduled| == 2;
    assert IsFirst(t.scheduled, 0, 0, Some("2022-02-15")) && IsDue(t.scheduled[1], 0);
    assert FirstIndex(t.scheduled, 0, Some("2022-02-15")) == Some(0);
  }

  /** Through the store: a 900 loan over two terms is issued (three writes);
      an overpayment of 400 makes four writes, and when the fourth (the
      payment record) fails, the loan update and both installment updates are
      rolled back too. `before` and `after` are the tables around the failed
      payment. */
  method RollbackThroughStore() returns (failed: Result<ReceivedRepayment>, before: Tables, after: Tables)
    ensures |before.loans| == 1 && |before.scheduled| == 2
    ensures failed.Err? && failed.error == StoreFailure && after == before
  {
    TwoTermOverpayment();
    var store := new Store(Some(3));
    var loan := CreateLoan(store, 7, 900, "VND", 2, "2022-01-15", Calendar);
    assert loan.Ok?;
    before := store.Contents();
    failed := RepayLoan(store, 0, 400, "VND", "2022-02-15");
    after := store.Contents();
  }

  /** The same loan and payment on a store that does not fail: the payment
      goes through and returns its record. */
  method RepaymentThroughStore() returns (succeeded: Result<ReceivedRepayment>)
    ensures succeeded == Ok(ReceivedRepayment(0, 400, "VND", "2022-02-15"))
  {
    TwoTermOverpayment();
    var store := new Store(None);
    var loan := CreateLoan(store, 7, 900, "VND", 2, "2022-01-15", Calendar);
    succeeded := RepayLoan(store, 0, 400, "VND", "2022-02-15");
  }
}
