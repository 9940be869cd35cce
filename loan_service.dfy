/** `LoanService`: issues a loan with its schedule and applies a received
    payment, each inside one store transaction that is rolled back on any
    failure. */
module LoanService {
  import opened LoanTypes
  import opened Persistence
  import opened Schedule
  import opened Repayment

  /** `createLoan`: inserts the Loan, then one installment per term, and
      commits; a failed write rolls everything back. The new loan's schedule
      sums to its amount (`Schedule.CreateBalances`). */
  method CreateLoan(store: Store, userId: int, amount: int, currencyCode: CurrencyCode, terms: int,
                    processedAt: Date, addMonths: (Date, nat) -> Date) returns (r: Result<Loan>)
    requires store.Valid() && store.snapshot.None?
    modifies store
    ensures store.Valid() && store.snapshot.None?
    ensures r.Ok? <==> Survives(store.failAt, 1 + TermCount(terms))
    ensures r.Err? ==> r.error == StoreFailure && store.Contents() == old(store.Contents())
    ensures r.Ok? ==> r.value == NewLoan(|old(store.loans)|, userId, amount, terms, processedAt)
    ensures r.Ok? ==> store.Contents() == Create(old(store.Contents()), userId, amount, currencyCode, terms, processedAt, addMonths)
  {
    store.Begin();
    var id := |store.loans|;
    var loan := NewLoan(id, userId, amount, terms, processedAt);
    var ok := store.InsertLoan(loan);
    if !ok {
      store.Rollback();
      return Err(StoreFailure);
    }
    var perMonth := PerMonth(amount);
    var i := 1;
    while i <= terms
      invariant 1 <= i <= TermCount(terms) + 1
      invariant store.Valid() && store.snapshot == Some(old(store.Contents()))
      invariant store.writes == i && Survives(store.failAt, i)
      invariant store.Contents() == Tables(old(store.loans) + [loan],
                                           old(store.scheduled) + Installments(id, amount, currencyCode, terms, processedAt, addMonths, i - 1),
                                           old(store.received))
    {
      var remaining := amount - perMonth * terms;
      var due := if i == terms then perMonth + remaining else perMonth;
      ok := store.InsertScheduled(ScheduledRepayment(id, due, due, currencyCode, addMonths(processedAt, i), Due));
      if !ok {
        store.Rollback();
        return Err(StoreFailure);
      }
      i := i + 1;
    }
    store.Commit();
    return Ok(loan);
  }

  /** `partialPayment`: the first Due installment of the loan, if there is one,
      gets the excess `received - perMonth` as its outstanding amount and
      becomes Partial; the excess is returned. Called inside `RepayLoan`'s
      transaction, which rolls back if this write fails. */
  method PartialPayment(store: Store, loanId: nat, perMonth: int, received: int) returns (r: Result<int>)
    requires store.Valid() && store.snapshot.Some? && loanId < |store.loans|
    modifies store
    ensures store.Valid() && store.snapshot == old(store.snapshot)
    ensures store.writes == old(store.writes) + (if FirstIndex(old(store.scheduled), loanId, None).Some? then 1 else 0)
    ensures r.Err? <==> FirstIndex(old(store.scheduled), loanId, None).Some? && store.failAt == Some(old(store.writes))
    ensures Survives(store.failAt, store.writes) <==> Survives(store.failAt, old(store.writes)) && r.Ok?
    ensures r.Ok? ==> r.value == received - perMonth
    ensures r.Ok? ==> store.Contents() == old(store.Contents()).(scheduled := RollOver(old(store.scheduled), loanId, perMonth, received))
    ensures r.Err? ==> r.error == StoreFailure && store.Contents() == old(store.Contents())
  {
    var next := FirstIndex(store.scheduled, loanId, None);
    if next.Some? {
      var row := store.scheduled[next.value];
      var ok := store.UpdateScheduled(next.value, row.(outstandingAmount := received - perMonth, status := Partial));
      if !ok {
        return Err(StoreFailure);
      }
    }
    return Ok(received - perMonth);
  }

  /** The body of `repayLoan`'s transaction: updates the loan (using
      `lastRepay`, read before any installment changes), pays the Due
      installment due on `receivedAt`, rolls an overpayment onto the next Due
      installment and records the payment. It stops at the first failure,
      leaving the rollback to `RepayLoan`. */
  method ApplyRepayment(store: Store, loanId: nat, received: int, currencyCode: CurrencyCode, receivedAt: Date)
    returns (r: Result<ReceivedRepayment>)
    requires store.Valid() && store.snapshot.Some? && store.writes == 0 && loanId < |store.loans|
    modifies store
    ensures store.Valid() && store.snapshot == old(store.snapshot)
    ensures r.Ok? <==> Repay(old(store.Contents()), loanId, received, currencyCode, receivedAt).Ok? &&
                       Survives(store.failAt, RepayWrites(old(store.Contents()), loanId, received, receivedAt))
    ensures r == Err(InstallmentNotFound) <==>
              Repay(old(store.Contents()), loanId, received, currencyCode, receivedAt).Err? && Survives(store.failAt, 1)
    ensures r.Ok? ==> r.value == ReceivedRepayment(loanId, received, currencyCode, receivedAt)
    ensures r.Ok? ==> Repay(old(store.Contents()), loanId, received, currencyCode, receivedAt) == Ok(store.Contents())
  {
    ghost var t := store.Contents();
    var loan := store.loans[loanId];
    var perMonth := PerMonth(loan.amount);
    var last := LastRepay(store.scheduled, loanId);
    var ok := store.UpdateLoan(loanId, SettledLoan(loan, last, received));
    if !ok {
      assert RepayWrites(t, loanId, received, receivedAt) >= 1;
      return Err(StoreFailure);
    }
    assert Survives(store.failAt, 1);
    var target := FirstIndex(store.scheduled, loanId, Some(receivedAt));
    if target.None? {
      assert Repay(t, loanId, received, currencyCode, receivedAt).Err?;
      return Err(InstallmentNotFound);
    }
    var k := target.value;
    RepayAt(t, loanId, received, currencyCode, receivedAt, k);
    ghost var paid := t.scheduled[k := PaidInstallment(t.scheduled[k], perMonth, received)];
    ok := store.UpdateScheduled(k, PaidInstallment(store.scheduled[k], perMonth, received));
    if !ok {
      return Err(StoreFailure);
    }
    assert store.scheduled == paid && store.writes == 2 && Survives(store.failAt, 2);
    if received > perMonth {
      var excess := PartialPayment(store, loanId, perMonth, received);
      if excess.Err? {
        assert RepayWrites(t, loanId, received, receivedAt) == 4;
        return Err(StoreFailure);
      }
      assert store.writes + 1 == RepayWrites(t, loanId, received, receivedAt);
    } else {
      assert store.writes + 1 == RepayWrites(t, loanId, received, receivedAt);
    }
    assert Survives(store.failAt, store.writes);
    var payment := ReceivedRepayment(loanId, received, currencyCode, receivedAt);
    ok := store.InsertReceived(payment);
    if !ok {
      return Err(StoreFailure);
    }
    assert Survives(store.failAt, RepayWrites(t, loanId, received, receivedAt));
    return Ok(payment);
  }

  /** `repayLoan`: runs `ApplyRepayment` in a transaction and commits it; when
      no installment matches, or a write fails, the whole transaction is
      rolled back and the store is as it was. */
  method RepayLoan(store: Store, loanId: nat, received: int, currencyCode: CurrencyCode, receivedAt: Date)
    returns (r: Result<ReceivedRepayment>)
    requires store.Valid() && store.snapshot.None? && loanId < |store.loans|
    modifies store
    ensures store.Valid() && store.snapshot.None?
    ensures r.Ok? <==> Repay(old(store.Contents()), loanId, received, currencyCode, receivedAt).Ok? &&
                       Survives(store.failAt, RepayWrites(old(store.Contents()), loanId, received, receivedAt))
    ensures r == Err(InstallmentNotFound) <==>
              Repay(old(store.Contents()), loanId, received, currencyCode, receivedAt).Err? && Survives(store.failAt, 1)
    ensures r.Err? ==> store.Contents() == old(store.Contents())
    ensures r.Ok? ==> r.value == ReceivedRepayment(loanId, received, currencyCode, receivedAt)
    ensures r.Ok? ==> Repay(old(store.Contents()), loanId, received, currencyCode, receivedAt) == Ok(store.Contents())
  {
    store.Begin();
    r := ApplyRepayment(store, loanId, received, currencyCode, receivedAt);
    if r.Err? {
      store.Rollback();
    } else {
      store.Commit();
    }
  }
}
