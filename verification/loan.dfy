/**
 * The loan router: booking a date range on an item, the five transitions a
 * loan goes through, and the reads that list an item's reservations.
 *
 * Each mutation is a pure decision function (the checks in the order the
 * router makes them, and the row it would write) and a method of
 * `LoanTable` that performs those checks and writes the row back. The table
 * invariant `Valid` says that no two loans holding dates on the same item
 * overlap, and that each loan's timestamps agree with its status.
 */
module LoanRouter {
  import opened Common
  import opened Dates
  import opened Schema

  const EndBeforeStart := "End date must be after start date"
  const OnlyPendingApproved := "Only pending reservations can be approved"
  const NotCancellable := "Only pending, approved, or reserved reservations can be cancelled"
  const BorrowedNotCancellable := "Cannot cancel a reservation that has already been borrowed"
  const AlreadyBorrowed := "This item has already been marked as borrowed"
  const NotPickable := "Only approved or reserved reservations can be marked as borrowed"
  const BeforeStart := "Cannot mark as borrowed before the reserved start date"
  const NotActive := "Only active (borrowed) reservations can be marked as returned"
  const NeverBorrowed := "Cannot mark as returned if item hasn't been borrowed"

  // ---------------------------------------------------------------------------
  // Date ranges

  /** Inclusive overlap of `[s1, e1]` and `[s2, e2]`. */
  predicate Overlaps(s1: int, e1: int, s2: int, e2: int) {
    s1 <= e2 && s2 <= e1
  }

  /** `l` is one of the rows the conflict query returns for `itemId`: a holding status and both dates set. */
  predicate HoldsDates(l: Loan, itemId: ItemId) {
    l.itemId == itemId && Holding(l.status) &&
    l.reservedStartDate.Some? && l.reservedEndDate.Some?
  }

  /** The test inside `create`'s `some`: the loan's stored range meets `[start, end]`, raw timestamps. */
  predicate MeetsRange(l: Loan, start: int, end: int) {
    l.reservedStartDate.Some? && l.reservedEndDate.Some? &&
    Overlaps(l.reservedStartDate.value, l.reservedEndDate.value, start, end)
  }

  /** The conflict check of `create`: the query for the item's holding rows followed by `some`. */
  function HasOverlap(loans: seq<Loan>, itemId: ItemId, start: int, end: int): (b: bool)
    ensures b <==> exists i :: 0 <= i < |loans| && HoldsDates(loans[i], itemId) && MeetsRange(loans[i], start, end)
  {
    var existing := Filter(loans, l => HoldsDates(l, itemId));
    var b := AnyOf(existing, l => MeetsRange(l, start, end));
    assert b ==> exists i :: 0 <= i < |loans| && HoldsDates(loans[i], itemId) && MeetsRange(loans[i], start, end) by {
      if b {
        var j :| 0 <= j < |existing| && MeetsRange(existing[j], start, end);
        assert existing[j] in loans;
      }
    }
    b
  }

  /** Two loans hold overlapping dates on the same item. */
  ghost predicate Clash(a: Loan, b: Loan) {
    HoldsDates(a, b.itemId) && HoldsDates(b, a.itemId) &&
    MeetsRange(a, b.reservedStartDate.value, b.reservedEndDate.value)
  }

  /** The booking invariant: per item, the date ranges of the loans still holding dates are pairwise disjoint. */
  ghost predicate NoDoubleBooking(loans: seq<Loan>) {
    forall i, j :: 0 <= i < |loans| && 0 <= j < |loans| && i != j ==> !Clash(loans[i], loans[j])
  }

  /**
   * A loan's timestamps agree with its status: it has been picked up iff it is
   * active or returned, returned iff returned, approved from the moment it
   * leaves `pending` on the way to pick-up, and a loan still holding its dates
   * has them in order.
   */
  ghost predicate Coherent(l: Loan) {
    && (l.borrowedAt.Some? <==> l.status == Active || l.status == Returned)
    && (l.returnedAt.Some? <==> l.status == Returned)
    && (l.status == Pending ==> l.approvedAt.None?)
    && (l.status in {Approved, Reserved, Active, Returned} ==> l.approvedAt.Some?)
    && (Holding(l.status) && l.reservedStartDate.Some? && l.reservedEndDate.Some? ==>
          l.reservedStartDate.value <= l.reservedEndDate.value)
  }

  // ---------------------------------------------------------------------------
  // create

  /** `create` (lines 11-100): the checks in their order, then the row it inserts. */
  function CreateLoan(loans: seq<Loan>, items: seq<Item>, caller: UserId, itemId: ItemId,
                      start: int, end: int, notes: Option<string>, now: int): (r: Result<Loan>)
    ensures r.Ok? <==> itemId < |items| && items[itemId].ownerId != caller && start <= end &&
                       !HasOverlap(loans, itemId, start, end)
    ensures r.Ok? ==> r.value.id == |loans| && r.value.borrowerId == caller && HoldsDates(r.value, itemId)
    ensures r.Ok? ==> r.value.reservedStartDate == Some(start) && r.value.reservedEndDate == Some(end)
    ensures r.Ok? ==> r.value.notes == notes && r.value.requestedAt == now && Coherent(r.value)
    ensures r.Ok? ==> r.value.status == (if items[itemId].requiresApproval then Pending else Reserved)
    ensures r.Ok? ==> r.value.approvedAt == (if items[itemId].requiresApproval then None else Some(now))
    ensures r.Ok? ==> r.value.borrowedAt.None? && r.value.returnedAt.None?
  {
    if itemId >= |items| then Err(NotFound)
    else if items[itemId].ownerId == caller then Err(Forbidden)
    else if end < start then Err(BadRequest(EndBeforeStart))
    else if HasOverlap(loans, itemId, start, end) then Err(Conflict)
    else
      var approval := items[itemId].requiresApproval;
      Ok(Loan(|loans|, itemId, caller, if approval then Pending else Reserved, now,
              if approval then None else Some(now), None, Some(start), Some(end), None, notes))
  }

  /** The errors of `create` come in the order NOT_FOUND, FORBIDDEN, BAD_REQUEST, CONFLICT. */
  lemma CreateErrorOrder(loans: seq<Loan>, items: seq<Item>, caller: UserId, itemId: ItemId,
                         start: int, end: int, notes: Option<string>, now: int)
    ensures var r := CreateLoan(loans, items, caller, itemId, start, end, notes, now);
      && (r == Err(NotFound) <==> itemId >= |items|)
      && (r == Err(Forbidden) <==> itemId < |items| && items[itemId].ownerId == caller)
      && (r.Err? && r.error.BadRequest? <==> itemId < |items| && items[itemId].ownerId != caller && end < start)
      && (r == Err(Conflict) <==> itemId < |items| && items[itemId].ownerId != caller && start <= end &&
                                  exists i :: 0 <= i < |loans| && HoldsDates(loans[i], itemId) && MeetsRange(loans[i], start, end))
  {
  }

  /** A loan `create` accepts clashes with no loan already in the table. */
  lemma {:induction false} CreateKeepsNoDoubleBooking(loans: seq<Loan>, items: seq<Item>, caller: UserId, itemId: ItemId,
                                                      start: int, end: int, notes: Option<string>, now: int)
    requires NoDoubleBooking(loans)
    requires CreateLoan(loans, items, caller, itemId, start, end, notes, now).Ok?
    ensures NoDoubleBooking(loans + [CreateLoan(loans, items, caller, itemId, start, end, notes, now).value])
  {
    var l := CreateLoan(loans, items, caller, itemId, start, end, notes, now).value;
    var all := loans + [l];
    forall i, j | 0 <= i < |all| && 0 <= j < |all| && i != j ensures !Clash(all[i], all[j]) {
      if i == |loans| {
        assert !(HoldsDates(all[j], itemId) && MeetsRange(all[j], start, end));
      } else if j == |loans| {
        assert !(HoldsDates(all[i], itemId) && MeetsRange(all[i], start, end));
      } else {
        assert !Clash(loans[i], loans[j]);
      }
    }
  }

  // ---------------------------------------------------------------------------
  // The five transitions, each on the loan row and the owner of its item

  /** `approve` (lines 208-262): the owner approves a pending request, stamping `approvedAt`. */
  function ApproveLoan(l: Loan, ownerId: UserId, caller: UserId, now: int): (r: Result<Loan>)
    ensures r == Err(Forbidden) <==> caller != ownerId
    ensures r.Ok? <==> caller == ownerId && l.status == Pending
    ensures r.Err? && r.error != Forbidden ==> r.error == BadRequest(OnlyPendingApproved)
    ensures r.Ok? ==> r.value.status == Approved && r.value.approvedAt == Some(now) &&
                      r.value.(status := l.status, approvedAt := l.approvedAt) == l
  {
    if ownerId != caller then Err(Forbidden)
    else if l.status != Pending then Err(BadRequest(OnlyPendingApproved))
    else Ok(l.(status := Approved, approvedAt := Some(now)))
  }

  /** `reject` (lines 264-329): `rejected` from pending, `cancelled` from approved or reserved. */
  function RejectLoan(l: Loan, ownerId: UserId, caller: UserId): (r: Result<Loan>)
    ensures r == Err(Forbidden) <==> caller != ownerId
    ensures r == Err(BadRequest(NotCancellable)) <==> caller == ownerId && l.status !in {Pending, Approved, Reserved}
    ensures r.Ok? <==> caller == ownerId && l.status in {Pending, Approved, Reserved} && l.borrowedAt.None?
    ensures r.Ok? ==> (r.value.status == Rejected <==> l.status == Pending) &&
                      (r.value.status == Cancelled <==> l.status != Pending) &&
                      r.value.(status := l.status) == l
  {
    if ownerId != caller then Err(Forbidden)
    else if l.status !in {Pending, Approved, Reserved} then Err(BadRequest(NotCancellable))
    else if l.borrowedAt.Some? then Err(BadRequest(BorrowedNotCancellable))
    else Ok(l.(status := if l.status == Pending then Rejected else Cancelled))
  }

  /** `cancel` (lines 360-412): the borrower withdraws; `borrowedAt` is not looked at. */
  function CancelLoan(l: Loan, caller: UserId): (r: Result<Loan>)
    ensures r == Err(Forbidden) <==> caller != l.borrowerId
    ensures r.Ok? <==> caller == l.borrowerId && l.status in {Pending, Approved, Reserved}
    ensures r.Err? && r.error != Forbidden ==> r.error == BadRequest(NotCancellable)
    ensures r.Ok? ==> r.value.status == Cancelled && r.value.(status := l.status) == l
  {
    if l.borrowerId != caller then Err(Forbidden)
    else if l.status !in {Pending, Approved, Reserved} then Err(BadRequest(NotCancellable))
    else Ok(l.(status := Cancelled))
  }

  /** `markAsBorrowed` (lines 414-496): pick-up, by the borrower or the owner, on or after the day the reservation starts. */
  function MarkAsBorrowedLoan(l: Loan, ownerId: UserId, caller: UserId, now: int): (r: Result<Loan>)
    ensures r == Err(Forbidden) <==> caller != l.borrowerId && caller != ownerId
    ensures r.Ok? <==> (caller == l.borrowerId || caller == ownerId) && l.borrowedAt.None? &&
                       l.status in {Approved, Reserved} &&
                       (l.reservedStartDate.Some? ==> Day(l.reservedStartDate.value) <= Day(now))
    ensures r == Err(BadRequest(BeforeStart)) <==>
              (caller == l.borrowerId || caller == ownerId) && l.borrowedAt.None? && l.status in {Approved, Reserved} &&
              l.reservedStartDate.Some? && Day(now) < Day(l.reservedStartDate.value)
    ensures r.Ok? ==> r.value.status == Active && r.value.borrowedAt == Some(now) &&
                      r.value.(status := l.status, borrowedAt := l.borrowedAt) == l
  {
    if l.borrowerId != caller && ownerId != caller then Err(Forbidden)
    else if l.borrowedAt.Some? then Err(BadRequest(AlreadyBorrowed))
    else if l.status !in {Approved, Reserved} then Err(BadRequest(NotPickable))
    else if l.reservedStartDate.Some? && Day(now) < Day(l.reservedStartDate.value) then Err(BadRequest(BeforeStart))
    else Ok(l.(status := Active, borrowedAt := Some(now)))
  }

  /** The end date after a return at `now`: cut back to `now` when the item comes back early. */
  function ReturnedEnd(end: Option<int>, now: int): (r: Option<int>)
    ensures r.Some? <==> end.Some?
    ensures r.Some? ==> r.value <= end.value && r.value <= now && (r.value == end.value || r.value == now)
  {
    if end.Some? && now < end.value then Some(now) else end
  }

  /** `markAsReturned` (lines 498-578): the borrower brings an active loan back. */
  function MarkAsReturnedLoan(l: Loan, caller: UserId, now: int): (r: Result<Loan>)
    ensures r == Err(Forbidden) <==> caller != l.borrowerId
    ensures r.Ok? <==> caller == l.borrowerId && l.status == Active && l.borrowedAt.Some?
    ensures r == Err(BadRequest(NotActive)) <==> caller == l.borrowerId && l.status != Active
    ensures r.Ok? ==> r.value.status == Returned && r.value.returnedAt == Some(now) &&
                      r.value.reservedEndDate == ReturnedEnd(l.reservedEndDate, now) &&
                      r.value.(status := l.status, returnedAt := l.returnedAt, reservedEndDate := l.reservedEndDate) == l
  {
    if l.borrowerId != caller then Err(Forbidden)
    else if l.status != Active then Err(BadRequest(NotActive))
    else if l.borrowedAt.None? then Err(BadRequest(NeverBorrowed))
    else Ok(l.(status := Returned, returnedAt := Some(now), reservedEndDate := ReturnedEnd(l.reservedEndDate, now)))
  }

  datatype Action = ApproveOp | RejectOp | CancelOp | MarkAsBorrowedOp | MarkAsReturnedOp

  /** The outcome of `a` on loan `l`, whose item is owned by `ownerId`, when `caller` asks at `now`. */
  function Transition(a: Action, l: Loan, ownerId: UserId, caller: UserId, now: int): Result<Loan> {
    match a
    case ApproveOp => ApproveLoan(l, ownerId, caller, now)
    case RejectOp => RejectLoan(l, ownerId, caller)
    case CancelOp => CancelLoan(l, caller)
    case MarkAsBorrowedOp => MarkAsBorrowedLoan(l, ownerId, caller, now)
    case MarkAsReturnedOp => MarkAsReturnedLoan(l, caller, now)
  }

  /** Who may perform each action: the item's owner, the loan's borrower, or either. */
  predicate MayAct(a: Action, caller: UserId, ownerId: UserId, borrowerId: UserId) {
    match a
    case ApproveOp => caller == ownerId
    case RejectOp => caller == ownerId
    case CancelOp => caller == borrowerId
    case MarkAsBorrowedOp => caller == borrowerId || caller == ownerId
    case MarkAsReturnedOp => caller == borrowerId
  }

  /** The state machine: the status changes each action may make. */
  predicate Step(a: Action, from: LoanStatus, to: LoanStatus) {
    match a
    case ApproveOp => from == Pending && to == Approved
    case RejectOp => (from == Pending && to == Rejected) || (from in {Approved, Reserved} && to == Cancelled)
    case CancelOp => from in {Pending, Approved, Reserved} && to == Cancelled
    case MarkAsBorrowedOp => from in {Approved, Reserved} && to == Active
    case MarkAsReturnedOp => from == Active && to == Returned
  }

  /** The new row keeps the loan's identity and never holds more than the old one: same dates while holding, end never later. */
  ghost predicate Narrows(l: Loan, l': Loan) {
    && l'.id == l.id && l'.itemId == l.itemId && l'.borrowerId == l.borrowerId
    && l'.requestedAt == l.requestedAt && l'.notes == l.notes
    && l'.reservedStartDate == l.reservedStartDate
    && (Holding(l'.status) ==> Holding(l.status) && l'.reservedEndDate == l.reservedEndDate)
    && (l'.reservedEndDate.Some? <==> l.reservedEndDate.Some?)
    && (l'.reservedEndDate.Some? ==> l'.reservedEndDate.value <= l.reservedEndDate.value)
  }

  /** The status and date checks an action makes once the caller has been admitted. */
  predicate Admits(a: Action, l: Loan, now: int) {
    match a
    case ApproveOp => l.status == Pending
    case RejectOp => l.status in {Pending, Approved, Reserved} && l.borrowedAt.None?
    case CancelOp => l.status in {Pending, Approved, Reserved}
    case MarkAsBorrowedOp =>
      l.borrowedAt.None? && l.status in {Approved, Reserved} &&
      (l.reservedStartDate.Some? ==> Day(l.reservedStartDate.value) <= Day(now))
    case MarkAsReturnedOp => l.status == Active && l.borrowedAt.Some?
  }

  /** The instant an action records on the row it writes: approval, pick-up and return are stamped with `now`. */
  predicate Stamped(a: Action, l: Loan, l': Loan, now: int) {
    match a
    case ApproveOp => l'.approvedAt == Some(now) && l'.borrowedAt == l.borrowedAt && l'.returnedAt == l.returnedAt
    case RejectOp => l'.approvedAt == l.approvedAt && l'.borrowedAt == l.borrowedAt && l'.returnedAt == l.returnedAt
    case CancelOp => l'.approvedAt == l.approvedAt && l'.borrowedAt == l.borrowedAt && l'.returnedAt == l.returnedAt
    case MarkAsBorrowedOp => l'.approvedAt == l.approvedAt && l'.borrowedAt == Some(now) && l'.returnedAt == l.returnedAt
    case MarkAsReturnedOp => l'.approvedAt == l.approvedAt && l'.borrowedAt == l.borrowedAt && l'.returnedAt == Some(now)
  }

  /**
   * Every action succeeds exactly when the caller is admitted and the loan
   * passes the action's checks; otherwise it fails with FORBIDDEN for a caller
   * not admitted and with BAD_REQUEST for a loan in the wrong state, and a
   * success stamps the action's instant.
   */
  lemma TransitionOutcome(a: Action, l: Loan, ownerId: UserId, caller: UserId, now: int)
    ensures var r := Transition(a, l, ownerId, caller, now);
      && (r.Ok? <==> MayAct(a, caller, ownerId, l.borrowerId) && Admits(a, l, now))
      && (r.Err? && r.error.BadRequest? <==> MayAct(a, caller, ownerId, l.borrowerId) && !Admits(a, l, now))
      && (r.Err? ==> r.error == Forbidden || r.error.BadRequest?)
      && (r.Ok? ==> Stamped(a, l, r.value, now))
  {
  }

  /** FORBIDDEN is raised exactly when the caller is not one the action admits. */
  lemma ForbiddenIffNotAdmitted(a: Action, l: Loan, ownerId: UserId, caller: UserId, now: int)
    ensures Transition(a, l, ownerId, caller, now) == Err(Forbidden) <==> !MayAct(a, caller, ownerId, l.borrowerId)
  {
  }

  /** Every successful transition is an edge of the state machine. */
  lemma TransitionFollowsStep(a: Action, l: Loan, ownerId: UserId, caller: UserId, now: int)
    requires Transition(a, l, ownerId, caller, now).Ok?
    ensures Step(a, l.status, Transition(a, l, ownerId, caller, now).value.status)
  {
  }

  /** Terminal loans are final: every action on them fails, with FORBIDDEN or BAD_REQUEST. */
  lemma TerminalIsFinal(a: Action, l: Loan, ownerId: UserId, caller: UserId, now: int)
    requires !Holding(l.status)
    ensures var r := Transition(a, l, ownerId, caller, now);
      r.Err? && (r.error == Forbidden || r.error.BadRequest?)
  {
  }

  /** Successful transitions keep timestamps coherent and never widen what the loan holds. */
  lemma TransitionKeepsInvariants(a: Action, l: Loan, ownerId: UserId, caller: UserId, now: int)
    requires Coherent(l)
    requires Transition(a, l, ownerId, caller, now).Ok?
    ensures Coherent(Transition(a, l, ownerId, caller, now).value)
    ensures Narrows(l, Transition(a, l, ownerId, caller, now).value)
  {
  }

  /** On a coherent loan the `borrowedAt` guard of `reject` never fires: the status guard already excludes picked-up loans. */
  lemma RejectBorrowedGuardRedundant(l: Loan, ownerId: UserId, caller: UserId)
    requires Coherent(l)
    ensures RejectLoan(l, ownerId, caller) != Err(BadRequest(BorrowedNotCancellable))
  {
  }

  /** An early return cuts the end date to the return instant; a late one leaves it: the end never moves later. */
  lemma ReturnTruncatesEnd(l: Loan, caller: UserId, now: int)
    requires MarkAsReturnedLoan(l, caller, now).Ok?
    requires l.reservedEndDate.Some?
    ensures var end' := MarkAsReturnedLoan(l, caller, now).value.reservedEndDate.value;
      && end' <= l.reservedEndDate.value
      && (end' == now <==> now <= l.reservedEndDate.value)
      && (end' == l.reservedEndDate.value <==> l.reservedEndDate.value <= now)
  {
  }

  /** Replacing one row by a narrower one keeps the booking invariant. */
  lemma {:induction false} NarrowingKeepsNoDoubleBooking(loans: seq<Loan>, k: nat, l': Loan)
    requires NoDoubleBooking(loans)
    requires k < |loans| && Narrows(loans[k], l')
    ensures NoDoubleBooking(loans[k := l'])
  {
    var all := loans[k := l'];
    forall i, j | 0 <= i < |all| && 0 <= j < |all| && i != j ensures !Clash(all[i], all[j]) {
      assert !Clash(loans[i], loans[j]);
    }
  }

  /** Writes row `k` of a table when `r` is a success, as the router's UPDATE does. */
  function Commit(loans: seq<Loan>, k: nat, r: Result<Loan>): seq<Loan> {
    if r.Ok? && k < |loans| then loans[k := r.value] else loans
  }

  // ---------------------------------------------------------------------------
  // Reads

  /** The filter of `getFutureReservations` (lines 122-130): raw dates against today's midnight. */
  predicate StartsOrEndsFrom(l: Loan, today: int) {
    l.reservedStartDate.Some? && l.reservedEndDate.Some? &&
    (l.reservedStartDate.value >= today || l.reservedEndDate.value >= today)
  }

  /** The rows of the query in `getFutureReservations`: the item's loans holding both dates, by start date. */
  function HeldRows(loans: seq<Loan>, itemId: ItemId): (r: seq<Loan>)
    ensures SortedBy(r, StartKey)
    ensures forall i :: 0 <= i < |r| ==> r[i] in loans && HoldsDates(r[i], itemId)
    ensures forall i :: 0 <= i < |loans| && HoldsDates(loans[i], itemId) ==> loans[i] in r
    ensures multiset(r) <= multiset(loans)
    ensures forall i :: 0 <= i < |loans| && HoldsDates(loans[i], itemId) ==> multiset(r)[loans[i]] == multiset(loans)[loans[i]]
  {
    var holds := l => HoldsDates(l, itemId);
    var held := Filter(loans, holds);
    var r := SortBy(held, StartKey);
    SameElements(held, r);
    PermutedFilterCounts(loans, holds, r);
    r
  }

  /** `getFutureReservations` (lines 102-131): the item's holding loans in start order that start or end today or later. */
  function FutureReservations(loans: seq<Loan>, itemId: ItemId, now: int): (r: seq<Loan>)
    ensures SortedBy(r, StartKey)
    ensures forall i :: 0 <= i < |r| ==> r[i] in loans && HoldsDates(r[i], itemId) && StartsOrEndsFrom(r[i], Day(now))
    ensures forall i :: 0 <= i < |loans| && HoldsDates(loans[i], itemId) && StartsOrEndsFrom(loans[i], Day(now)) ==> loans[i] in r
    ensures multiset(r) <= multiset(loans)
    ensures forall i :: 0 <= i < |loans| && HoldsDates(loans[i], itemId) && StartsOrEndsFrom(loans[i], Day(now)) ==>
              multiset(r)[loans[i]] == multiset(loans)[loans[i]]
  {
    var today := Day(now);
    var upcoming := l => StartsOrEndsFrom(l, today);
    var rows := HeldRows(loans, itemId);
    FilterKeepsSorted(rows, upcoming, StartKey);
    FilterOfSelectionCounts(loans, l => HoldsDates(l, itemId), rows, upcoming);
    Filter(rows, upcoming)
  }

  /** One of the caller's own loans on the item that still holds its dates. */
  predicate OwnHolding(l: Loan, itemId: ItemId, caller: UserId) {
    l.borrowerId == caller && HoldsDates(l, itemId)
  }

  /** The find of `getCurrentUserReservation` (lines 152-164): today lies in the loan's range, both ends truncated to their day. */
  predicate CoversDay(l: Loan, today: int) {
    l.reservedStartDate.Some? && l.reservedEndDate.Some? &&
    Day(l.reservedStartDate.value) <= today <= Day(l.reservedEndDate.value)
  }

  /** The rows of the query in `getCurrentUserReservation`: the caller's holding loans on the item, by start date. */
  function OwnRows(loans: seq<Loan>, itemId: ItemId, caller: UserId): (r: seq<Loan>)
    ensures SortedBy(r, StartKey)
    ensures forall i :: 0 <= i < |r| ==> r[i] in loans && OwnHolding(r[i], itemId, caller)
    ensures forall i :: 0 <= i < |loans| && OwnHolding(loans[i], itemId, caller) ==> loans[i] in r
    ensures multiset(r) <= multiset(loans)
    ensures forall i :: 0 <= i < |loans| && OwnHolding(loans[i], itemId, caller) ==> multiset(r)[loans[i]] == multiset(loans)[loans[i]]
  {
    var mine := l => OwnHolding(l, itemId, caller);
    var own := Filter(loans, mine);
    var r := SortBy(own, StartKey);
    SameElements(own, r);
    PermutedFilterCounts(loans, mine, r);
    r
  }

  /**
   * `getCurrentUserReservation` (lines 133-167): the caller's loan that covers
   * today, the earliest-starting one if several do, or null when none does.
   */
  function CurrentUserReservation(loans: seq<Loan>, itemId: ItemId, caller: UserId, now: int): (r: Option<Loan>)
    ensures r.None? <==> forall i :: 0 <= i < |loans| ==> !(OwnHolding(loans[i], itemId, caller) && CoversDay(loans[i], Day(now)))
    ensures r.Some? ==> r.value in loans && OwnHolding(r.value, itemId, caller) && CoversDay(r.value, Day(now))
    ensures r.Some? ==> forall i :: 0 <= i < |loans| && OwnHolding(loans[i], itemId, caller) && CoversDay(loans[i], Day(now)) ==>
                                    StartKey(r.value) <= StartKey(loans[i])
  {
    var today := Day(now);
    var rows := OwnRows(loans, itemId, caller);
    match FindIndex(rows, l => CoversDay(l, today))
    case None =>
      assert forall i :: 0 <= i < |loans| ==> !(OwnHolding(loans[i], itemId, caller) && CoversDay(loans[i], today)) by {
        forall i | 0 <= i < |loans| && OwnHolding(loans[i], itemId, caller)
          ensures !CoversDay(loans[i], today)
        {
          var j :| 0 <= j < |rows| && rows[j] == loans[i];
        }
      }
      None
    case Some(k) =>
      FirstMatchIsLeast(rows, l => CoversDay(l, today), StartKey, k);
      assert forall i :: 0 <= i < |loans| && OwnHolding(loans[i], itemId, caller) && CoversDay(loans[i], today) ==>
                         StartKey(rows[k]) <= StartKey(loans[i]) by {
        forall i | 0 <= i < |loans| && OwnHolding(loans[i], itemId, caller) && CoversDay(loans[i], today)
          ensures StartKey(rows[k]) <= StartKey(loans[i])
        {
          var j :| 0 <= j < |rows| && rows[j] == loans[i];
        }
      }
      Some(rows[k])
  }

  /** `ORDER BY requestedAt DESC`: newest request first. */
  function NewestFirst(l: Loan): int {
    -l.requestedAt
  }

  /** The loan's item is a row of `items` owned by `caller`. */
  predicate OnItemOwnedBy(l: Loan, items: seq<Item>, caller: UserId) {
    l.itemId < |items| && items[l.itemId].ownerId == caller
  }

  /** `getByOwner` (lines 169-206): every loan on the caller's items, newest request first. */
  function ByOwner(loans: seq<Loan>, items: seq<Item>, caller: UserId): (r: seq<Loan>)
    ensures SortedBy(r, NewestFirst)
    ensures forall i :: 0 <= i < |r| ==> r[i] in loans && OnItemOwnedBy(r[i], items, caller)
    ensures forall i :: 0 <= i < |loans| && OnItemOwnedBy(loans[i], items, caller) ==> loans[i] in r
    ensures multiset(r) <= multiset(loans)
    ensures forall i :: 0 <= i < |loans| && OnItemOwnedBy(loans[i], items, caller) ==> multiset(r)[loans[i]] == multiset(loans)[loans[i]]
  {
    var onMine := l => OnItemOwnedBy(l, items, caller);
    var own := Filter(loans, onMine);
    var r := SortBy(own, NewestFirst);
    SameElements(own, r);
    PermutedFilterCounts(loans, onMine, r);
    r
  }

  /** `getByBorrower` (lines 331-358): the caller's loans, newest request first. */
  function ByBorrower(loans: seq<Loan>, caller: UserId): (r: seq<Loan>)
    ensures SortedBy(r, NewestFirst)
    ensures forall i :: 0 <= i < |r| ==> r[i] in loans && r[i].borrowerId == caller
    ensures forall i :: 0 <= i < |loans| && loans[i].borrowerId == caller ==> loans[i] in r
    ensures multiset(r) <= multiset(loans)
    ensures forall i :: 0 <= i < |loans| && loans[i].borrowerId == caller ==> multiset(r)[loans[i]] == multiset(loans)[loans[i]]
  {
    var borrowed := (l: Loan) => l.borrowerId == caller;
    var own := Filter(loans, borrowed);
    var r := SortBy(own, NewestFirst);
    SameElements(own, r);
    PermutedFilterCounts(loans, borrowed, r);
    r
  }

  // ---------------------------------------------------------------------------
  // The loans table

  class LoanTable {
    var loans: seq<Loan>

    /** Row ids are positions, every row is coherent, and no item is double-booked. */
    ghost predicate Valid()
      reads this
    {
      && (forall i :: 0 <= i < |loans| ==> loans[i].id == i && Coherent(loans[i]))
      && NoDoubleBooking(loans)
    }

    /** The foreign key `loans.item_id`: every loan's item is a row of `items`. */
    ghost predicate RefersTo(items: seq<Item>)
      reads this
    {
      forall i :: 0 <= i < |loans| ==> loans[i].itemId < |items|
    }

    constructor ()
      ensures Valid() && loans == []
    {
      loans := [];
    }

    /** The UPDATE of row `k`, with a row that narrows the old one. */
    method Write(k: nat, l': Loan)
      requires Valid() && k < |loans|
      requires l'.id == k && Coherent(l') && Narrows(loans[k], l')
      modifies this
      ensures Valid()
      ensures loans == old(loans)[k := l']
    {
      NarrowingKeepsNoDoubleBooking(loans, k, l');
      loans := loans[k := l'];
    }

    method Create(caller: UserId, items: seq<Item>, itemId: ItemId, start: int, end: int,
                  notes: Option<string>, now: int) returns (r: Result<Loan>)
      requires Valid()
      modifies this
      ensures Valid()
      ensures r == CreateLoan(old(loans), items, caller, itemId, start, end, notes, now)
      ensures loans == if r.Ok? then old(loans) + [r.value] else old(loans)
      ensures old(RefersTo(items)) ==> RefersTo(items)
    {
      if itemId >= |items| {
        return Err(NotFound);
      }
      var item := items[itemId];
      if item.ownerId == caller {
        return Err(Forbidden);
      }
      if end < start {
        return Err(BadRequest(EndBeforeStart));
      }
      var existing := Filter(loans, l => HoldsDates(l, itemId));
      var hasOverlap := AnyOf(existing, l => MeetsRange(l, start, end));
      if hasOverlap {
        return Err(Conflict);
      }
      var status := if item.requiresApproval then Pending else Reserved;
      var approvedAt := if item.requiresApproval then None else Some(now);
      var loan := Loan(|loans|, itemId, caller, status, now, approvedAt, None, Some(start), Some(end), None, notes);
      CreateKeepsNoDoubleBooking(loans, items, caller, itemId, start, end, notes, now);
      loans := loans + [loan];
      r := Ok(loan);
    }

    method Approve(caller: UserId, items: seq<Item>, loanId: LoanId, now: int) returns (r: Result<Loan>)
      requires Valid() && RefersTo(items)
      modifies this
      ensures Valid() && RefersTo(items)
      ensures loanId >= |old(loans)| ==> r == Err(NotFound)
      ensures loanId < |old(loans)| ==>
                r == ApproveLoan(old(loans)[loanId], items[old(loans)[loanId].itemId].ownerId, caller, now)
      ensures loans == Commit(old(loans), loanId, r)
    {
      if loanId >= |loans| {
        return Err(NotFound);
      }
      var loan := loans[loanId];
      if items[loan.itemId].ownerId != caller {
        return Err(Forbidden);
      }
      if loan.status != Pending {
        return Err(BadRequest(OnlyPendingApproved));
      }
      var updated := loan.(status := Approved, approvedAt := Some(now));
      Write(loanId, updated);
      r := Ok(updated);
    }

    method Reject(caller: UserId, items: seq<Item>, loanId: LoanId) returns (r: Result<Loan>)
      requires Valid() && RefersTo(items)
      modifies this
      ensures Valid() && RefersTo(items)
      ensures loanId >= |old(loans)| ==> r == Err(NotFound)
      ensures loanId < |old(loans)| ==>
                r == RejectLoan(old(loans)[loanId], items[old(loans)[loanId].itemId].ownerId, caller)
      ensures loans == Commit(old(loans), loanId, r)
    {
      if loanId >= |loans| {
        return Err(NotFound);
      }
      var loan := loans[loanId];
      if items[loan.itemId].ownerId != caller {
        return Err(Forbidden);
      }
      if loan.status !in {Pending, Approved, Reserved} {
        return Err(BadRequest(NotCancellable));
      }
      if loan.borrowedAt.Some? {
        return Err(BadRequest(BorrowedNotCancellable));
      }
      var newStatus := if loan.status == Pending then Rejected else Cancelled;
      var updated := loan.(status := newStatus);
      Write(loanId, updated);
      r := Ok(updated);
    }

    method Cancel(caller: UserId, loanId: LoanId) returns (r: Result<Loan>)
      requires Valid()
      modifies this
      ensures Valid()
      ensures loanId >= |old(loans)| ==> r == Err(NotFound)
      ensures loanId < |old(loans)| ==> r == CancelLoan(old(loans)[loanId], caller)
      ensures loans == Commit(old(loans), loanId, r)
    {
      if loanId >= |loans| {
        return Err(NotFound);
      }
      var loan := loans[loanId];
      if loan.borrowerId != caller {
        return Err(Forbidden);
      }
      if loan.status !in {Pending, Approved, Reserved} {
        return Err(BadRequest(NotCancellable));
      }
      var updated := loan.(status := Cancelled);
      Write(loanId, updated);
      r := Ok(updated);
    }

    method MarkAsBorrowed(caller: UserId, items: seq<Item>, loanId: LoanId, now: int) returns (r: Result<Loan>)
      requires Valid() && RefersTo(items)
      modifies this
      ensures Valid() && RefersTo(items)
      ensures loanId >= |old(loans)| ==> r == Err(NotFound)
      ensures loanId < |old(loans)| ==>
                r == MarkAsBorrowedLoan(old(loans)[loanId], items[old(loans)[loanId].itemId].ownerId, caller, now)
      ensures loans == Commit(old(loans), loanId, r)
    {
      if loanId >= |loans| {
        return Err(NotFound);
      }
      var loan := loans[loanId];
      var isBorrower := loan.borrowerId == caller;
      var isOwner := items[loan.itemId].ownerId == caller;
      if !isBorrower && !isOwner {
        return Err(Forbidden);
      }
      if loan.borrowedAt.Some? {
        return Err(BadRequest(AlreadyBorrowed));
      }
      if loan.status !in {Approved, Reserved} {
        return Err(BadRequest(NotPickable));
      }
      if loan.reservedStartDate.Some? {
        var today := Day(now);
        var startDay := Day(loan.reservedStartDate.value);
        if today < startDay {
          return Err(BadRequest(BeforeStart));
        }
      }
      var updated := loan.(status := Active, borrowedAt := Some(now));
      Write(loanId, updated);
      r := Ok(updated);
    }

    method MarkAsReturned(caller: UserId, loanId: LoanId, now: int) returns (r: Result<Loan>)
      requires Valid()
      modifies this
      ensures Valid()
      ensures loanId >= |old(loans)| ==> r == Err(NotFound)
      ensures loanId < |old(loans)| ==> r == MarkAsReturnedLoan(old(loans)[loanId], caller, now)
      ensures loans == Commit(old(loans), loanId, r)
    {
      if loanId >= |loans| {
        return Err(NotFound);
      }
      var loan := loans[loanId];
      if loan.borrowerId != caller {
        return Err(Forbidden);
      }
      if loan.status != Active {
        return Err(BadRequest(NotActive));
      }
      if loan.borrowedAt.None? {
        return Err(BadRequest(NeverBorrowed));
      }
      var updated := loan.(status := Returned, returnedAt := Some(now));
      if loan.reservedEndDate.Some? {
        var end := loan.reservedEndDate.value;
        if now < end {
          updated := updated.(reservedEndDate := Some(now));
        }
      }
      Write(loanId, updated);
      r := Ok(updated);
    }
  }
}
