# Loan engine model

A Dafny model of the loan engine of a Laravel loan service (`LoanService`).
The engine does two things:

- It issues a loan. `createLoan` inserts a Loan row. It then inserts one
  ScheduledRepayment (installment) per term.
- It applies a received payment. `repayLoan` updates the Loan, pays the Due
  installment that falls on the payment date, and rolls an overpayment onto
  the next Due installment (`partialPayment`). It then appends a
  ReceivedRepayment row.

Each operation runs in one database transaction. Any failure rolls the
transaction back and re-raises the error.

The store is the class `Persistence.Store`. It holds three tables (loans,
installments, payments) as sequences. A loan's id is its index in the loans
table. A loan's installments are the rows with its `loanId`, in table order.
"First" means lowest index, which is the order Eloquent's relation returns.
`Begin`, `Commit` and `Rollback` keep a snapshot of the tables. The database
error is injected with `failAt`: the write with that number (counted from 0
within each transaction) fails. The service methods in `LoanService` are
imperative. `CreateLoan` appends rows in a loop. `RepayLoan` and
`PartialPayment` update rows in place. Each method's postcondition ties the
new tables to a pure specification: `Schedule.Create`, `Repayment.Repay`
or, for `PartialPayment`, `Repayment.RollOver`.
The lemmas in `Schedule` and `Repayment` prove what those specifications
promise. `Scenarios` works through concrete payments on a 900 loan.
`Scenarios.RollbackThroughStore` and `Scenarios.RepaymentThroughStore` walk
the same kind of payment through the store, with a failing write and without.

## Behaviour as written

The model follows the code. In these places the code differs from an
idealised amortisation design:

- The base installment is `intdiv(amount, 3)` whatever `terms` is. The last
  installment absorbs `amount - base * terms`. So the amounts always sum to
  the principal (`Schedule.ScheduleTotal`). With more than four terms the
  last one can be negative (`Schedule.NegativeLastInstallment`).
- `intdiv` truncates toward zero. `LoanTypes.IntDiv` models that, not
  Dafny's floor division.
- Every Loan row gets currency `VND`. The installments get the caller's
  currency (`Scenarios.IssuedSchedule` asks for USD).
- `lastRepay` is read before any installment changes. If at most one
  installment is still Due, the loan is set to outstanding 0 and Repaid.
  This happens even when that payment leaves an installment Partial
  (`Scenarios.SettledWhileInstallmentPartial`). The loan status is written
  with the installment status constants. The model uses one `Status` type
  for both.
- Otherwise the loan balance becomes `loan.amount - received`. It does not
  accumulate across payments (`Scenarios.BalanceNotCumulative`).
- So the loan's outstanding amount can rise: paying 300 and then 100 on the
  900 loan takes it from 600 to 800 (`Scenarios.OutstandingRises`).
- The paid installment is judged against the nominal base, not its own
  outstanding amount. Paying the base on the last installment marks it
  Repaid with 0 owed, even if it carried a remainder.
- An overpayment sets the next Due installment's outstanding amount to the
  excess. It replaces the balance rather than reducing it
  (`Scenarios.OverpaymentOverwrites`: 100 owed, not 200). An installment
  can then owe more than its amount: paying 1000 on the first leaves the
  second owing 700 against 300 (`Scenarios.InstallmentOwesMoreThanAmount`).
  The rollover target is the first Due installment of the loan. That may be
  an earlier one than the paid installment (`Scenarios.RolloverOntoEarlier`).
- The installment is picked by exact equality of its due date with the
  payment date. Any other date fails with `InstallmentNotFound`, which is
  the null-row update in the code. That failure comes after the loan row
  was updated, and the rollback undoes that update.
- Only Due installments are selected, so a Partial installment is never paid
  again: paying 100 and then the remaining 200 on the same date refuses the
  second payment (`Scenarios.PartialNotPayable`).
- Nothing checks that `amount` or `terms` is positive, or that the loan is
  still Due. With `terms <= 0` the loop creates no installments.

## Model

| member | source | states |
|---|---|---|
| LoanTypes.PerMonth | app/Services/LoanService.php:81 | the base installment `intdiv(amount, 3)`: three bases fall short of a non-negative amount by 0, 1 or 2, and exceed a negative one by at most 2 |
| LoanTypes.IntDiv | app/Services/LoanService.php:40 | `intdiv` truncates toward zero: the remainder has the sign of the dividend and is smaller than the divisor |
| Schedule.NewLoan | app/Services/LoanService.php:30-38 | the Loan row `createLoan` inserts: the caller's user, amount, terms and date, fully outstanding, Due, and always VND |
| Schedule.Installment | app/Services/LoanService.php:42-54 | installment `i` belongs to the loan, carries the caller's currency, is Due and fully outstanding, is due `addMonths(processedAt, i)`, and has the base amount except installment `terms`, which gets `amount - base * (terms - 1)` |
| Schedule.Installments | app/Services/LoanService.php:42-55 | installment `k` (from 1) belongs to the loan, has the caller's currency, is Due, has outstanding equal to amount, is due `addMonths(processedAt, k)`, and has amount `intdiv(amount, 3)` except installment `terms`, which takes what the others leave |
| Schedule.TermCount | app/Services/LoanService.php:42 | the number of passes of the `for` loop: `terms` when positive, and none exactly when `terms <= 0` |
| Schedule.LoanSchedule | app/Services/LoanService.php:42-55 | the loop's whole output: no installment when `terms <= 0`; otherwise `terms` Due installments of the loan in the caller's currency, fully outstanding, due one, two, ... months after `processedAt`, all of the base amount except the last, which gets `amount - base * (terms - 1)` |
| Schedule.Create | app/Services/LoanService.php:30-55 | creating a loan keeps the store well formed: ids match positions and every installment refers to an existing loan |
| Schedule.ScheduleTotal | app/Services/LoanService.php:40-50 | for any `terms >= 1` the installment amounts sum exactly to the loan amount |
| Schedule.CreateBalances | app/Services/LoanService.php:30-55 | after creation the new loan's schedule sums to its amount, and every existing loan's schedule total is unchanged |
| Schedule.ThreeTermSchedule | app/Services/LoanService.php:40-49 | for every amount, three terms give `[b, b, amount - 2 * b]` with `b = intdiv(amount, 3)`: `[b, b, b + amount % 3]` for a non-negative amount, and -333, -333, -334 for -1000 |
| Schedule.ThousandOverThreeTerms | app/Services/LoanService.php:40-49 | 1000 over three terms gives 333, 333, 334 |
| Schedule.NegativeLastInstallment | app/Services/LoanService.php:40-50 | 3 over five terms gives 1, 1, 1, 1, -1, because the divisor is fixed at 3 |
| Repayment.FirstIndex | app/Services/LoanService.php:88-90 | the query's `first()`: the lowest-index Due row of the loan (on the date, when given), or none exactly when no row matches |
| Repayment.CountDue | app/Services/LoanService.php:127-130 | the Due count is at most the number of rows, and 0 exactly when the loan has no Due installment |
| Repayment.CountDueAtMostOne | app/Services/LoanService.php:127-130 | a count of at most one is the same as: no two distinct Due installments of the loan |
| Repayment.LastRepay | app/Services/LoanService.php:125-131 | `lastRepay` is true exactly when at most one installment of the loan is Due |
| Repayment.CountDueSettle | app/Services/LoanService.php:88-97 | moving one Due installment of the loan out of Due lowers the Due count by exactly one |
| Repayment.SettledLoan | app/Services/LoanService.php:83-86 | only the loan's outstanding amount and status change: Repaid with 0 owed exactly when `lastRepay` held, otherwise Due owing `amount - received` |
| Repayment.PaidInstallment | app/Services/LoanService.php:90-97 | only the installment's outstanding amount and status change; it leaves Due, is Partial exactly when `received < base`, owes 0 exactly when `received >= base`, and otherwise owes `base - received` |
| Repayment.RollOver | app/Services/LoanService.php:142-146 | `partialPayment`'s write: only the loan's first Due installment can change, and it becomes Partial owing `received - base` |
| Repayment.Settle | app/Services/LoanService.php:88-101 | the installments after a payment: the paid row is `PaidInstallment` of it, and any other row that changes is a Due installment of the loan on an overpayment |
| Repayment.RepayWrites | app/Services/LoanService.php:83-108 | the writes `repayLoan` issues: 1 (the loan update) exactly when no Due installment of the loan falls on the date; 4 exactly when an overpayment finds another Due installment to roll onto; otherwise 3 |
| Repayment.Repay | app/Services/LoanService.php:76-118 | fails with `InstallmentNotFound` exactly when no Due installment of the loan is due on the payment date; on success it appends exactly the payment record, keeps the table sizes and keeps the store well formed |
| Repayment.SettleRows | app/Services/LoanService.php:88-101 | paying a Due installment: it becomes Partial owing `base - received` below the base, otherwise Repaid owing 0; on overpayment the loan's first Due installment after that becomes Partial owing the excess; every other row is unchanged |
| Repayment.SettleReducesDue | app/Services/LoanService.php:88-101 | paying a Due installment, with its rollover, strictly lowers the loan's number of Due installments |
| Repayment.RepayUpdatesLoan | app/Services/LoanService.php:83-86 | only the paid loan changes: outstanding 0 and Repaid if at most one installment was Due before the payment, otherwise `amount - received` and Due |
| Repayment.RepayInstallments | app/Services/LoanService.php:88-101 | the first Due installment on the date becomes Partial owing `base - received` below the base, otherwise Repaid owing 0; on overpayment the next Due installment becomes Partial owing the excess; every other installment is unchanged |
| Repayment.RepayOnlySettlesDue | app/Services/LoanService.php:88-101 | every installment a payment changes was Due on this loan and is no longer Due; its loan, amount, currency and due date stay the same |
| Repayment.RepayReducesDue | app/Services/LoanService.php:88-101 | every successful payment strictly lowers the loan's number of Due installments |
| Repayment.RepayKeepsTotals | app/Services/LoanService.php:83-108 | payments never change installment amounts, so every loan's schedule total, and with it the sum invariant, is preserved |
| LoanService.CreateLoan | app/Services/LoanService.php:24-64 | succeeds exactly when none of its `1 + terms` writes fails; it then returns the new Loan (caller's amount and terms, fully outstanding, Due, VND) and the store is `Create` of the old one; on failure the store is as before |
| LoanService.PartialPayment | app/Services/LoanService.php:140-148 | returns `received - base` and writes the rollover of the first Due installment; no write when there is none; a failed write changes nothing |
| LoanService.ApplyRepayment | app/Services/LoanService.php:81-108 | the transaction body: it succeeds exactly when `Repay` does and every write it issues succeeds, returning the payment record with the tables equal to `Repay` of the old ones; it stops with `InstallmentNotFound` exactly when no installment matches after the loan update went through |
| LoanService.RepayLoan | app/Services/LoanService.php:76-118 | succeeds exactly when `Repay` does and all its writes succeed; it then returns the payment record and the store is `Repay` of the old one; it fails with `InstallmentNotFound` exactly when no installment matches (and the first write succeeded); any failure leaves every table as before |
| Persistence.Store.Begin | app/Services/LoanService.php:28 | opening a transaction records the current tables as its snapshot and changes no row |
| Persistence.Store.Commit | app/Services/LoanService.php:56 | committing keeps every table and closes the transaction |
| Persistence.Store.Rollback | app/Services/LoanService.php:60-62 | rolling back restores every table to the snapshot taken when the transaction began |
| Persistence.Store.InsertLoan | app/Services/LoanService.php:30-38 | `Loan::create` appends the row unless this write is the failing one, in which case nothing changes |
| Persistence.Store.InsertScheduled | app/Services/LoanService.php:47-54 | `ScheduledRepayment::create` appends the row unless this write fails |
| Persistence.Store.UpdateLoan | app/Services/LoanService.php:83-86 | `$loan->update` replaces the loan row unless this write fails |
| Persistence.Store.UpdateScheduled | app/Services/LoanService.php:90-97 | an installment `update` replaces that row unless this write fails |
| Persistence.Store.InsertReceived | app/Services/LoanService.php:103-108 | `ReceivedRepayment::create` appends the record unless this write fails |
| Scenarios.IssuedSchedule | app/Services/LoanService.php:30-55 | 900 over three terms asked in USD issues a Due VND loan owing 900, with three Due USD installments of 300 due one, two and three months later |
| Scenarios.Underpayment | app/Services/LoanService.php:83-97 | paying 100 on the first installment leaves it Partial owing 200, and the loan Due owing 800 |
| Scenarios.OverpaymentOverwrites | app/Services/LoanService.php:99-101 | paying 400 on the first installment repays it; the second becomes Partial owing 100; the third is untouched |
| Scenarios.RolloverOntoEarlier | app/Services/LoanService.php:99-101 | paying 400 on the second installment repays it and rolls the excess back onto the first, now Partial owing 100; the third is untouched |
| Scenarios.BalanceNotCumulative | app/Services/LoanService.php:84 | two payments of 100 leave the loan owing 800, not 700 |
| Scenarios.SettledWhileInstallmentPartial | app/Services/LoanService.php:83-86 | paying 300, 300, then 100 settles the loan at 0 and Repaid while the third installment stays Partial owing 200 |
| Scenarios.PartialNotPayable | app/Services/LoanService.php:88-90 | after paying 100 on the first installment it is Partial, and paying the remaining 200 on the same date fails with `InstallmentNotFound` |
| Scenarios.OutstandingRises | app/Services/LoanService.php:84 | paying 300 leaves the loan owing 600, and then paying 100 leaves it owing 800 |
| Scenarios.InstallmentOwesMoreThanAmount | app/Services/LoanService.php:142-146 | paying 1000 on the first installment leaves the second Partial owing 700 against an amount of 300 |
| Scenarios.UnknownDateRefused | app/Services/LoanService.php:88-90 | a payment on a date no Due installment falls on fails with `InstallmentNotFound` |
| Scenarios.TwoTermOverpayment | app/Services/LoanService.php:40-108 | a 900 loan over two terms gets installments of 300 and 600; paying 400 on the first installment succeeds and issues four writes: loan, installment, rollover and payment record |
| Scenarios.RollbackThroughStore | app/Services/LoanService.php:76-118 | on a store whose fourth write fails, that overpayment fails with a store error and every table is as before the payment (rollback at lines 113-116) |
| Scenarios.RepaymentThroughStore | app/Services/LoanService.php:76-118 | on a store whose writes all succeed, the same payment returns its record |

## Left out

- Calendar arithmetic: the `strtotime("+i months")` date step is PHP library code. It is the parameter `addMonths`, and its day-overflow handling is not modelled.
- Integer width: PHP integers are 64-bit and turn into floats on overflow. The model uses unbounded integers.
- Failing reads: only writes can fail in the model. In `repayLoan` the `lastRepay` query runs before the first write, so its failure would leave the store as it was, like a failing first write; the relation load at line 88 runs after the loan update, and its failure would be rolled back like a failing installment write.
- LoanService.CreateLoan and LoanService.RepayLoan: `DB::commit()` (lines 56 and 110) is modelled as never failing. In the code a failing commit falls into the catch, which rolls back and re-throws; the model promises success whenever every write succeeds.
- Fault plan: `failAt` names the same write number in every transaction of a store. It stands for any database error; errors are not otherwise distinguished.
- In-memory model objects: the model assumes `$loan` and its installments are read fresh from the database for each call. After a rollback the PHP `$loan` object still holds the attributes set at line 83, and Eloquent's `update` writes only attributes that differ from the object's. A caller that reuses the same `$loan` after a refused payment (say 100 on a wrong date) and retries on the right date gets no loan write at line 83: the database row stays at 900 where `Repayment.Repay` gives 800. For the same reason line 83 issues no query when the values are unchanged, while `Repayment.RepayWrites` and the fault plan count it as a write. A relation loaded before the call could also be stale; the model reads it fresh in table order.
- Row identities and timestamps: installments and payments have no id column in the model. Loan ids start at 0, where the database's auto-increment ids start at 1. The user is only its id.
- Concurrency: two payments against the same loan are not locked against each other in the code. The model is sequential.
- HTTP controllers, routes, request validation, authorization policies and test factories are not part of this model.
