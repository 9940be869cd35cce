/** The transactional store the loan service writes through: three tables,
    begin/commit/rollback, and row writes that may fail. */
module Persistence {
  import opened LoanTypes

  /** The first `writes` writes of a transaction all succeed under a store
      whose write number `failAt` fails. */
  predicate Survives(failAt: Option<nat>, writes: nat) {
    failAt.None? || failAt.value >= writes
  }

  class Store {
    var loans: seq<Loan>
    var scheduled: seq<ScheduledRepayment>
    var received: seq<ReceivedRepayment>

    /** The tables as they were when the open transaction began. */
    var snapshot: Option<Tables>

    /** Writes issued since the open transaction began. */
    var writes: nat

    /** The write (numbered from 0 within each transaction) that fails, if any:
        it stands for any error the database raises. */
    const failAt: Option<nat>

    function Contents(): Tables
      reads this
    {
      Tables(loans, scheduled, received)
    }

    predicate Valid()
      reads this
    {
      WellFormed(Contents()) && (snapshot.Some? ==> WellFormed(snapshot.value))
    }

    constructor (failAt: Option<nat>)
      ensures Valid() && snapshot.None?
      ensures Contents() == Tables([], [], []) && this.failAt == failAt
    {
      loans, scheduled, received := [], [], [];
      snapshot := None;
      writes := 0;
      this.failAt := failAt;
    }

    method Begin()
      requires Valid() && snapshot.None?
      modifies this
      ensures Valid() && snapshot == Some(old(Contents())) && writes == 0
      ensures Contents() == old(Contents())
    {
      snapshot := Some(Contents());
      writes := 0;
    }

    method Commit()
      requires Valid() && snapshot.Some?
      modifies this
      ensures Valid() && snapshot.None? && Contents() == old(Contents())
    {
      snapshot := None;
    }

    /** Restores every table to its state when the transaction began. */
    method Rollback()
      requires Valid() && snapshot.Some?
      modifies this
      ensures Valid() && snapshot.None? && Contents() == old(snapshot.value)
    {
      loans, scheduled, received := snapshot.value.loans, snapshot.value.scheduled, snapshot.value.received;
      snapshot := None;
    }

    method InsertLoan(loan: Loan) returns (ok: bool)
      requires Valid() && snapshot.Some? && loan.id == |loans|
      modifies this
      ensures Valid() && snapshot == old(snapshot) && writes == old(writes) + 1
      ensures ok <==> failAt != Some(old(writes))
      ensures Survives(failAt, writes) <==> Survives(failAt, old(writes)) && ok
      ensures Contents() == if ok then old(Contents()).(loans := old(loans) + [loan]) else old(Contents())
    {
      ok := failAt != Some(writes);
      writes := writes + 1;
      if ok {
        loans := loans + [loan];
      }
    }

    method UpdateLoan(id: nat, loan: Loan) returns (ok: bool)
      requires Valid() && snapshot.Some? && id < |loans| && loan.id == id
      modifies this
      ensures Valid() && snapshot == old(snapshot) && writes == old(writes) + 1
      ensures ok <==> failAt != Some(old(writes))
      ensures Survives(failAt, writes) <==> Survives(failAt, old(writes)) && ok
      ensures Contents() == if ok then old(Contents()).(loans := old(loans)[id := loan]) else old(Contents())
    {
      ok := failAt != Some(writes);
      writes := writes + 1;
      if ok {
        loans := loans[id := loan];
      }
    }

    method InsertScheduled(row: ScheduledRepayment) returns (ok: bool)
      requires Valid() && snapshot.Some? && row.loanId < |loans|
      modifies this
      ensures Valid() && snapshot == old(snapshot) && writes == old(writes) + 1
      ensures ok <==> failAt != Some(old(writes))
      ensures Survives(failAt, writes) <==> Survives(failAt, old(writes)) && ok
      ensures Contents() == if ok then old(Contents()).(scheduled := old(scheduled) + [row]) else old(Contents())
    {
      ok := failAt != Some(writes);
      writes := writes + 1;
      if ok {
        scheduled := scheduled + [row];
      }
    }

    method UpdateScheduled(i: nat, row: ScheduledRepayment) returns (ok: bool)
      requires Valid() && snapshot.Some? && i < |scheduled| && row.loanId < |loans|
      modifies this
      ensures Valid() && snapshot == old(snapshot) && writes == old(writes) + 1
      ensures ok <==> failAt != Some(old(writes))
      ensures Survives(failAt, writes) <==> Survives(failAt, old(writes)) && ok
      ensures Contents() == if ok then old(Contents()).(scheduled := old(scheduled)[i := row]) else old(Contents())
    {
      ok := failAt != Some(writes);
      writes := writes + 1;
      if ok {
        scheduled := scheduled[i := row];
      }
    }

    method InsertReceived(payment: ReceivedRepayment) returns (ok: bool)
      requires Valid() && snapshot.Some? && payment.loanId < |loans|
      modifies this
      ensures Valid() && snapshot == old(snapshot) && writes == old(writes) + 1
      ensures ok <==> failAt != Some(old(writes))
      ensures Survives(failAt, writes) <==> Survives(failAt, old(writes)) && ok
      ensures Contents() == if ok then old(Contents()).(received := old(received) + [payment]) else old(Contents())
    {
      ok := failAt != Some(writes);
      writes := writes + 1;
      if ok {
        received := received + [payment];
      }
    }
  }
}
