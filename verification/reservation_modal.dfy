/**
 * The mobile reservation form: two date pickers and a notes field, a
 * client-side check of the chosen range against the item's upcoming
 * reservations, and the request it sends to the loan router.
 */
module ReservationModal {
  import opened Common
  import opened Dates
  import opened Schema
  import opened LoanRouter

  const PastStart := "Start date cannot be in the past"
  const ClientEndBeforeStart := "End date must be after start date"
  const AlreadyReserved := "This item is already reserved for the selected dates"
  const ItemNotFound := "Item not found"
  const OwnItem := "You cannot reserve your own item"

  /** The input the form passes to `loan.create`. */
  datatype CreateRequest = CreateRequest(start: int, end: int, notes: Option<string>)

  /** The `some` of `validateDates` (lines 135-146): the reservation's days meet the chosen days. */
  predicate MeetsDays(r: Loan, start: int, end: int) {
    r.reservedStartDate.Some? && r.reservedEndDate.Some? &&
    Day(start) <= Day(r.reservedEndDate.value) && Day(r.reservedStartDate.value) <= Day(end)
  }

  /**
   * What `validateDates` (lines 115-155) objects to, if anything: a start day
   * before today, an end day before the start day, or a clash with one of the
   * loaded reservations. Before the reservations have loaded nothing clashes.
   */
  function DateProblem(start: int, end: int, reservations: Option<seq<Loan>>, now: int): (p: Option<string>)
    ensures p == Some(PastStart) <==> Day(start) < Day(now)
    ensures p == Some(ClientEndBeforeStart) <==> Day(now) <= Day(start) && Day(end) < Day(start)
    ensures p == Some(AlreadyReserved) <==>
              Day(now) <= Day(start) <= Day(end) && reservations.Some? &&
              exists i :: 0 <= i < |reservations.value| && MeetsDays(reservations.value[i], start, end)
    ensures p.None? || p == Some(PastStart) || p == Some(ClientEndBeforeStart) || p == Some(AlreadyReserved)
  {
    if Day(start) < Day(now) then Some(PastStart)
    else if Day(end) < Day(start) then Some(ClientEndBeforeStart)
    else if reservations.Some? && AnyOf(reservations.value, r => MeetsDays(r, start, end)) then Some(AlreadyReserved)
    else None
  }

  /**
   * A range that meets one of the router's conflict rows, with its start day
   * not before today, meets one of the reservations the form has loaded by days.
   */
  lemma {:induction false} OverlapIsShown(loans: seq<Loan>, itemId: ItemId, start: int, end: int, now: int)
    ensures var shown := FutureReservations(loans, itemId, now);
      HasOverlap(loans, itemId, start, end) && Day(now) <= Day(start) ==>
        exists j :: 0 <= j < |shown| && MeetsDays(shown[j], start, end)
  {
    var shown := FutureReservations(loans, itemId, now);
    if HasOverlap(loans, itemId, start, end) && Day(now) <= Day(start) {
      var i :| 0 <= i < |loans| && HoldsDates(loans[i], itemId) && MeetsRange(loans[i], start, end);
      var l := loans[i];
      DayMonotone(start, l.reservedEndDate.value);
      DayMonotone(l.reservedStartDate.value, end);
      assert StartsOrEndsFrom(l, Day(now));
      var j :| 0 <= j < |shown| && shown[j] == l;
      assert MeetsDays(shown[j], start, end);
    }
  }

  /**
   * A range the form accepts against the item's upcoming reservations never
   * meets the router's conflict check: the form compares whole days, which
   * is coarser than the router's comparison of instants, and the reservations
   * it leaves out ended before today.
   */
  lemma AcceptedRangeHasNoOverlap(loans: seq<Loan>, itemId: ItemId, start: int, end: int, now: int)
    requires DateProblem(start, end, Some(FutureReservations(loans, itemId, now)), now).None?
    ensures !HasOverlap(loans, itemId, start, end)
  {
    OverlapIsShown(loans, itemId, start, end, now);
  }

  /**
   * What the router answers to a range the form accepted: never CONFLICT, and
   * BAD_REQUEST only for an end earlier than the start on the same day, which
   * the form's day-level comparison lets through.
   */
  lemma {:induction false} AcceptedRangeOutcome(loans: seq<Loan>, items: seq<Item>, caller: UserId, itemId: ItemId,
                                                start: int, end: int, notes: Option<string>, now: int)
    requires DateProblem(start, end, Some(FutureReservations(loans, itemId, now)), now).None?
    ensures var r := CreateLoan(loans, items, caller, itemId, start, end, notes, now);
      r != Err(Conflict) && (r.Err? && r.error.BadRequest? ==> end < start && Day(start) == Day(end))
  {
    AcceptedRangeHasNoOverlap(loans, itemId, start, end, now);
    assert Day(start) <= Day(end);
    if end < start {
      DayMonotone(end, start);
    }
  }

  /** The same-day case is real: the form accepts 10:00 to 09:00 of one future day, and the router refuses it. */
  lemma SameDayInversionAccepted(items: seq<Item>, caller: UserId, itemId: ItemId, now: int)
    requires itemId < |items| && items[itemId].ownerId != caller
    ensures var d := Day(now) + DayMs;
      && DateProblem(d + 36_000_000, d + 32_400_000, Some([]), now).None?
      && CreateLoan([], items, caller, itemId, d + 36_000_000, d + 32_400_000, None, now) == Err(BadRequest(EndBeforeStart))
  {
    var d := Day(now) + DayMs;
    DayOfMidnight(d);
    DayMonotone(d, d + 32_400_000);
    DayMonotone(d, d + 36_000_000);
    DayNext(now);
  }

  /** The text the form shows when `loan.create` fails (lines 67-80): the router's message for each error. */
  function CreateErrorText(e: Error): (t: string)
    ensures t != []
    ensures e.BadRequest? && e.message != [] ==> t == e.message
  {
    match e
    case NotFound => ItemNotFound
    case Forbidden => OwnItem
    case Conflict => AlreadyReserved
    case BadRequest(m) => if m != [] then m else "Failed to create reservation"
  }

  /** The form's state (lines 34-43). */
  class ReservationForm {
    var startDate: int
    var endDate: int
    var notes: string
    var error: Option<string>

    /** A fresh form: starting now, ending a day later. */
    constructor (now: int)
      ensures startDate == now && endDate == now + DayMs && notes == [] && error.None?
    {
      startDate := now;
      endDate := now + DayMs;
      notes := [];
      error := None;
    }

    /** `handleStartDateChange` (lines 91-104): a start after the end pushes the end to the day after the start. */
    method HandleStartDateChange(selected: Option<int>)
      modifies this
      ensures selected.None? ==> startDate == old(startDate) && endDate == old(endDate)
      ensures selected.Some? ==> startDate == selected.value &&
                                 endDate == (if old(endDate) < selected.value then selected.value + DayMs else old(endDate))
      ensures selected.Some? ==> startDate <= endDate
      ensures notes == old(notes) && error == old(error)
    {
      if selected.Some? {
        var selectedDate := selected.value;
        if endDate < selectedDate {
          endDate := selectedDate + DayMs;
        }
        startDate := selectedDate;
      }
    }

    /** `handleEndDateChange` (lines 106-113). */
    method HandleEndDateChange(selected: Option<int>)
      modifies this
      ensures endDate == if selected.Some? then selected.value else old(endDate)
      ensures startDate == old(startDate) && notes == old(notes) && error == old(error)
    {
      if selected.Some? {
        endDate := selected.value;
      }
    }

    /** `validateDates` (lines 115-155): records the first problem found, if any. */
    method ValidateDates(futureReservations: Option<seq<Loan>>, now: int) returns (ok: bool)
      modifies this
      ensures ok <==> DateProblem(startDate, endDate, futureReservations, now).None?
      ensures error == if ok then old(error) else DateProblem(startDate, endDate, futureReservations, now)
      ensures startDate == old(startDate) && endDate == old(endDate) && notes == old(notes)
    {
      var today := Day(now);
      var start := Day(startDate);
      var end := Day(endDate);
      if start < today {
        error := Some(PastStart);
        return false;
      }
      if end < start {
        error := Some(ClientEndBeforeStart);
        return false;
      }
      if futureReservations.Some? {
        var s, e := startDate, endDate;
        var hasConflict := AnyOf(futureReservations.value, r => MeetsDays(r, s, e));
        if hasConflict {
          error := Some(AlreadyReserved);
          return false;
        }
      }
      return true;
    }

    /** `handleSubmit` (lines 157-169): clears the error, validates, and yields the request to send. */
    method HandleSubmit(futureReservations: Option<seq<Loan>>, now: int) returns (request: Option<CreateRequest>)
      modifies this
      ensures error == DateProblem(startDate, endDate, futureReservations, now)
      ensures request.Some? <==> error.None?
      ensures request.Some? ==> request.value == CreateRequest(startDate, endDate, TrimmedOrNull(notes))
      ensures startDate == old(startDate) && endDate == old(endDate) && notes == old(notes)
    {
      error := None;
      var ok := ValidateDates(futureReservations, now);
      if !ok {
        return None;
      }
      request := Some(CreateRequest(startDate, endDate, TrimmedOrNull(notes)));
    }

    /** The `onSuccess` of the mutation (lines 54-66): the form starts over. */
    method OnCreated(now: int)
      modifies this
      ensures startDate == now && endDate == now + DayMs && notes == [] && error.None?
    {
      startDate := now;
      endDate := now + DayMs;
      notes := [];
      error := None;
    }

    /** The `onError` of the mutation (lines 67-80). */
    method OnCreateError(e: Error)
      modifies this
      ensures error == Some(CreateErrorText(e))
      ensures startDate == old(startDate) && endDate == old(endDate) && notes == old(notes)
    {
      error := Some(CreateErrorText(e));
    }
  }
}
