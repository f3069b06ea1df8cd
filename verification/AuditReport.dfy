/** The failures the billing-consistency audit reports, and the list that stops growing at its limit. */
module AuditReport {

  /** A credit applied to an invoice. */
  datatype Pair = Pair(creditId: string, invoiceId: string)

  datatype Failure =
    | InvoiceLineTotalMismatch(id: string, lineSum: int, subtotal: int)
    | InvoiceTotalMismatch(id: string, subtotal: int, discount: int, total: int)
    | InvoiceBalanceMismatch(id: string, balance: int, expected: int)
    | PaidInvoiceHasBalance(id: string, balance: int)
    | PaymentAllocationMismatch(id: string, amount: int, applied: int, credited: int, unapplied: int)
    | CreditBalanceInvalid(id: string, amount: int, remaining: int)
    | ApplicationAmountUnrecoverable(pair: Pair)
    | OrphanApplicationRow(pair: Pair)

  const FAILURE_LIMIT := 50

  function Capped(failures: seq<Failure>): seq<Failure> {
    if |failures| <= FAILURE_LIMIT then failures else failures[..FAILURE_LIMIT]
  }

  class FailureList {
    var failures: seq<Failure>
    ghost var reported: seq<Failure>

    ghost predicate Valid()
      reads this
    {
      failures == Capped(reported)
    }

    constructor ()
      ensures Valid() && reported == []
    {
      failures, reported := [], [];
    }

    /** `_append_failure`. */
    method Append(failure: Failure)
      requires Valid()
      modifies this
      ensures Valid() && reported == old(reported) + [failure]
    {
      if |failures| < FAILURE_LIMIT {
        failures := failures + [failure];
      }
      reported := reported + [failure];
    }
  }

  /** Reports the failure when its check fails. */
  method Check(report: FailureList, fails: bool, failure: Failure)
    requires report.Valid()
    modifies report
    ensures report.Valid() && report.reported == old(report.reported) + if fails then [failure] else []
  {
    if fails {
      report.Append(failure);
    }
  }
}
