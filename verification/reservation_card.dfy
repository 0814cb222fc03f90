/**
 * One reservation on the borrower's list: the status badge and the three
 * buttons (cancel, mark as picked up, mark as returned) the card offers, and
 * how those choices relate to what the loan router would accept.
 */
module MyReservationCard {
  import opened Common
  import opened Dates
  import opened Schema
  import opened LoanRouter
  import ItemRouter
  import MyReservationsList

  datatype Variant = Default | Secondary | Destructive | Outline

  datatype StatusDisplay = StatusDisplay(text: string, variant: Variant)

  /** `getStatusDisplay` (lines 40-97), without the colour classes. */
  function GetStatusDisplay(l: Loan): (d: StatusDisplay)
    ensures d.variant == Destructive <==> l.status == Cancelled || l.status == Rejected
    ensures d.variant == Outline <==> l.status == Pending
    ensures d.text == "borrowed" <==> l.status == Active || (l.status in {Approved, Reserved} && l.borrowedAt.Some?)
    ensures l.status == Pending ==> d.text == "pending"
    ensures l.status == Rejected ==> d.text == "rejected"
    ensures l.status == Cancelled ==> d.text == "cancelled"
    ensures l.status == Returned ==> d.text == "returned"
    ensures l.status == Approved && l.borrowedAt.None? ==> d.text == "approved - ready to pick up"
    ensures l.status == Reserved && l.borrowedAt.None? ==> d.text == "reserved"
  {
    var isBorrowed := l.borrowedAt.Some?;
    match l.status
    case Pending => StatusDisplay("pending", Outline)
    case Approved =>
      StatusDisplay(if isBorrowed then "borrowed" else "approved - ready to pick up", if isBorrowed then Secondary else Default)
    case Reserved => StatusDisplay(if isBorrowed then "borrowed" else "reserved", if isBorrowed then Secondary else Default)
    case Active => StatusDisplay("borrowed", Secondary)
    case Rejected => StatusDisplay("rejected", Destructive)
    case Cancelled => StatusDisplay("cancelled", Destructive)
    case Returned => StatusDisplay("returned", Secondary)
  }

  /** On a coherent loan the badge text reads "borrowed" exactly while the loan is active. */
  lemma BorrowedLabelIffActive(l: Loan)
    requires Coherent(l)
    ensures GetStatusDisplay(l).text == "borrowed" <==> l.status == Active
  {
  }

  /** The card's `isFutureReservation` (lines 99-106): the start date's day is after today. */
  function IsFuture(l: Loan, now: int): (b: bool)
    ensures b <==> l.reservedStartDate.Some? && Day(now) + DayMs <= l.reservedStartDate.value
  {
    MyReservationsList.IsFutureReservation(l.reservedStartDate, l.reservedEndDate, now)
  }

  /** `canCancel` (lines 108-114). */
  function CanCancel(l: Loan, now: int): (b: bool)
    ensures b <==> l.status in {Pending, Approved, Reserved} && l.reservedStartDate.Some? &&
                   Day(now) + DayMs <= l.reservedStartDate.value
    ensures b ==> CancelLoan(l, l.borrowerId).Ok?
  {
    l.status in {Pending, Approved, Reserved} && IsFuture(l, now)
  }

  /** `isApprovedNotBorrowed` (lines 174-176). */
  function IsApprovedNotBorrowed(l: Loan): (b: bool)
    ensures b ==> CancelLoan(l, l.borrowerId).Ok?
    ensures b ==> GetStatusDisplay(l).text in {"approved - ready to pick up", "reserved"}
  {
    l.status in {Approved, Reserved} && l.borrowedAt.None?
  }

  /** `canMarkAsBorrowed` (lines 179-187): approved, not picked up, and the start day has come. */
  function CanMarkAsBorrowed(l: Loan, now: int): (b: bool)
    ensures b <==> l.status in {Approved, Reserved} && l.borrowedAt.None? &&
                   l.reservedStartDate.Some? && l.reservedStartDate.value < Day(now) + DayMs
    ensures b ==> !CanCancel(l, now)
  {
    IsApprovedNotBorrowed(l) && l.reservedStartDate.Some? &&
    (DayReachedBefore(l.reservedStartDate.value, now); Day(now) >= Day(l.reservedStartDate.value))
  }

  /** `showCancelButton` (line 190). */
  function ShowCancelButton(l: Loan, now: int): (b: bool)
    ensures b ==> CancelLoan(l, l.borrowerId).Ok?
    ensures b && l.status == Pending ==> IsFuture(l, now)
  {
    CanCancel(l, now) || IsApprovedNotBorrowed(l)
  }

  /** `isActive` (line 193). */
  function IsActive(l: Loan): (b: bool)
    ensures b ==> GetStatusDisplay(l) == StatusDisplay("borrowed", Secondary)
    ensures Coherent(l) ==> (b <==> l.status == Active)
  {
    l.status == Active && l.borrowedAt.Some?
  }

  /** `isPastDue` (lines 196-204): picked up and the end date's day is behind today. */
  function IsPastDue(l: Loan, now: int): (b: bool)
    ensures b ==> IsActive(l) && l.reservedEndDate.Some? && l.reservedEndDate.value < Day(now)
  {
    IsActive(l) && l.reservedEndDate.Some? && Day(now) > Day(l.reservedEndDate.value)
  }

  /** The buttons the card renders (lines 297-342). */
  datatype Buttons = Buttons(cancel: bool, markAsBorrowed: bool, markAsReturned: bool)

  function CardButtons(l: Loan, now: int): (b: Buttons)
    ensures b.cancel <==> l.status in {Pending, Approved, Reserved} && (IsFuture(l, now) || (l.status != Pending && l.borrowedAt.None?))
    ensures b.markAsBorrowed ==> b.cancel
    ensures b.markAsReturned ==> !b.cancel && !b.markAsBorrowed
  {
    Buttons(ShowCancelButton(l, now), CanMarkAsBorrowed(l, now), IsActive(l))
  }

  /**
   * Every button the card shows on the borrower's own loan is one the loan
   * router accepts from the borrower at that moment.
   */
  lemma ButtonsAreAccepted(l: Loan, ownerId: UserId, now: int)
    ensures CardButtons(l, now).cancel ==> CancelLoan(l, l.borrowerId).Ok?
    ensures CardButtons(l, now).markAsBorrowed ==> MarkAsBorrowedLoan(l, ownerId, l.borrowerId, now).Ok?
    ensures CardButtons(l, now).markAsReturned ==> MarkAsReturnedLoan(l, l.borrowerId, now).Ok?
  {
  }

  /**
   * On a coherent loan the card is stricter than the router only for
   * cancellation: a pending request whose start day has come can still be
   * cancelled by the router, but the card offers no button for it. For the
   * other two actions the card offers the button exactly when the router
   * would accept.
   */
  lemma HiddenButAccepted(l: Loan, ownerId: UserId, now: int)
    requires Coherent(l)
    ensures CancelLoan(l, l.borrowerId).Ok? && !CardButtons(l, now).cancel <==> l.status == Pending && !IsFuture(l, now)
    ensures l.reservedStartDate.Some? ==>
              (MarkAsBorrowedLoan(l, ownerId, l.borrowerId, now).Ok? <==> CardButtons(l, now).markAsBorrowed)
    ensures MarkAsReturnedLoan(l, l.borrowerId, now).Ok? <==> CardButtons(l, now).markAsReturned
  {
  }

  /** `canCancel` wants the start day ahead and `canMarkAsBorrowed` wants it reached: never both. */
  lemma CancelExcludesPickUp(l: Loan, now: int)
    ensures !(CanCancel(l, now) && CanMarkAsBorrowed(l, now))
  {
  }

  /**
   * An overdue loan no longer counts as a booking covering today, so the
   * catalog's derived status stops reflecting it while the item is still out.
   */
  lemma PastDueIsNotActiveToday(l: Loan, now: int)
    requires IsPastDue(l, now)
    ensures l.status == Active && l.borrowedAt.Some? && Day(l.reservedEndDate.value) < Day(now)
    ensures !ItemRouter.ActiveOn(l, Day(now))
  {
  }

  /** The catalog's "active today" is the list's `current` tab restricted to loans still holding their dates. */
  lemma ActiveTodayIsCurrent(l: Loan, now: int)
    ensures ItemRouter.ActiveOn(l, Day(now)) <==>
            Holding(l.status) && MyReservationsList.IsCurrentReservation(l.reservedStartDate, l.reservedEndDate, now)
  {
  }
}
