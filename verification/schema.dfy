/**
 * The records the routers read and write: items, loans and the error codes
 * the procedures raise. Identifiers of rows that are never deleted (items,
 * loans, feedbacks) are their positions in the table; user identifiers are
 * the opaque strings the session supplies.
 */
module Schema {
  import opened Common

  type UserId = string
  type ItemId = nat
  type LoanId = nat

  datatype ItemStatus = Available | Borrowed | Unavailable

  datatype Item = Item(
    id: ItemId,
    ownerId: UserId,
    title: string,
    description: string,
    category: Option<string>,
    imageUrl: Option<string>,
    requiresApproval: bool,
    status: ItemStatus,
    isListed: bool,
    createdAt: int,
    updatedAt: int)

  datatype LoanStatus = Pending | Approved | Reserved | Active | Returned | Cancelled | Rejected

  /**
   * The statuses the routers filter on with
   * `["pending", "approved", "reserved", "active"]`: a loan in one of them
   * still holds its dates. The other three are terminal.
   */
  predicate Holding(s: LoanStatus) {
    s == Pending || s == Approved || s == Reserved || s == Active
  }

  datatype Loan = Loan(
    id: LoanId,
    itemId: ItemId,
    borrowerId: UserId,
    status: LoanStatus,
    requestedAt: int,
    approvedAt: Option<int>,
    borrowedAt: Option<int>,
    reservedStartDate: Option<int>,
    reservedEndDate: Option<int>,
    returnedAt: Option<int>,
    notes: Option<string>)

  /** The tRPC error codes the core raises; BAD_REQUEST keeps its message so the checks can be told apart. */
  datatype Error = NotFound | Forbidden | BadRequest(message: string) | Conflict

  datatype Result<+T> = Ok(value: T) | Err(error: Error)

  /** The start date as the ORDER BY sees it; only ever applied to loans whose start is set. */
  function StartKey(l: Loan): int {
    match l.reservedStartDate
    case Some(t) => t
    case None => 0
  }
}
