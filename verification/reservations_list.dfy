/**
 * The borrower's reservation list on the web client: the caller's loans from
 * `getByBorrower`, narrowed by one of four tabs that sort reservations into
 * current, past and future by their dates alone.
 */
module MyReservationsList {
  import opened Common
  import opened Dates
  import opened Schema

  /** `isCurrentReservation` (lines 21-32): today lies between the days of both dates. */
  function IsCurrentReservation(start: Option<int>, end: Option<int>, now: int): (b: bool)
    ensures b ==> start.Some? && end.Some? && start.value < Day(now) + DayMs && Day(now) <= end.value
    ensures b ==> !IsPastReservation(start, end, now) && !IsFutureReservation(start, end, now)
  {
    start.Some? && end.Some? && Day(start.value) <= Day(now) <= Day(end.value)
  }

  /** `isPastReservation` (lines 34-43): the end date's day is before today. */
  function IsPastReservation(start: Option<int>, end: Option<int>, now: int): (b: bool)
    ensures b <==> end.Some? && end.value < Day(now)
    ensures b && start.Some? && Day(start.value) <= Day(end.value) ==> !IsFutureReservation(start, end, now)
  {
    if end.Some? && Day(end.value) < Day(now) then
      MidnightsApart(Day(end.value), Day(now));
      true
    else false
  }

  /** `isFutureReservation` (lines 45-54): the start date's day is after today. */
  function IsFutureReservation(start: Option<int>, end: Option<int>, now: int): (b: bool)
    ensures b <==> start.Some? && Day(now) + DayMs <= start.value
  {
    if start.Some? && Day(start.value) > Day(now) then
      MidnightsApart(Day(now), Day(start.value));
      true
    else false
  }

  datatype FilterType = All | Current | Past | Future

  /** The `switch` inside the list's `filter` (lines 119-140). */
  predicate Shows(filter: FilterType, l: Loan, now: int) {
    match filter
    case All => true
    case Current => IsCurrentReservation(l.reservedStartDate, l.reservedEndDate, now)
    case Past => IsPastReservation(l.reservedStartDate, l.reservedEndDate, now)
    case Future => IsFutureReservation(l.reservedStartDate, l.reservedEndDate, now)
  }

  /** The test a tab applies to each reservation. */
  function TabTest(filter: FilterType, now: int): Loan -> bool {
    l => Shows(filter, l, now)
  }

  /** The reservations the selected tab lists, in the order the server sent them. */
  function FilterReservations(reservations: seq<Loan>, filter: FilterType, now: int): (r: seq<Loan>)
    ensures forall i :: 0 <= i < |r| ==> r[i] in reservations && Shows(filter, r[i], now)
    ensures forall i :: 0 <= i < |reservations| && Shows(filter, reservations[i], now) ==> reservations[i] in r
    ensures multiset(r) <= multiset(reservations)
    ensures forall i :: 0 <= i < |reservations| && Shows(filter, reservations[i], now) ==>
              multiset(r)[reservations[i]] == multiset(reservations)[reservations[i]]
  {
    FilterCounts(reservations, TabTest(filter, now));
    Filter(reservations, TabTest(filter, now))
  }

  /** The tabs look at one reservation at a time: the list of a concatenation is the concatenation of the lists. */
  lemma FilterReservationsAppend(a: seq<Loan>, b: seq<Loan>, filter: FilterType, now: int)
    ensures FilterReservations(a + b, filter, now) == FilterReservations(a, filter, now) + FilterReservations(b, filter, now)
  {
    FilterAppend(a, b, TabTest(filter, now));
  }

  /** A single reservation is listed, once, exactly when the tab shows it. */
  lemma FilterReservationsSingleton(l: Loan, filter: FilterType, now: int)
    ensures FilterReservations([l], filter, now) == (if Shows(filter, l, now) then [l] else [])
  {
    assert [l][1..] == [];
  }

  /** The `all` tab lists every reservation, in order. */
  lemma {:induction false} AllTabKeepsEverything(reservations: seq<Loan>, now: int)
    ensures FilterReservations(reservations, All, now) == reservations
  {
    if reservations != [] {
      AllTabKeepsEverything(reservations[1..], now);
      assert reservations == [reservations[0]] + reservations[1..];
      FilterReservationsAppend([reservations[0]], reservations[1..], All, now);
      FilterReservationsSingleton(reservations[0], All, now);
    }
  }

  /**
   * A reservation whose days are in order falls under exactly one of the
   * current, past and future tabs.
   */
  lemma TabsPartition(start: int, end: int, now: int)
    requires Day(start) <= Day(end)
    ensures var c := IsCurrentReservation(Some(start), Some(end), now);
            var p := IsPastReservation(Some(start), Some(end), now);
            var f := IsFutureReservation(Some(start), Some(end), now);
      (c || p || f) && !(c && p) && !(c && f) && !(p && f)
  {
  }

  /** A reservation whose end day precedes its start day can be listed as past and as future at once. */
  lemma InvertedRangeIsPastAndFuture(now: int)
    ensures IsPastReservation(Some(now + DayMs), Some(now - DayMs), now)
    ensures IsFutureReservation(Some(now + DayMs), Some(now - DayMs), now)
  {
    DayNext(now);
    DayNext(now - DayMs);
  }

  /** Without dates a reservation is listed only under `all`. */
  lemma UndatedOnlyUnderAll(l: Loan, filter: FilterType, now: int)
    requires l.reservedStartDate.None? && l.reservedEndDate.None?
    ensures Shows(filter, l, now) <==> filter == All
  {
  }

  /**
   * The tabs look at dates only: a cancelled or rejected loan whose dates are
   * ahead is still listed under `future`.
   */
  lemma TabsIgnoreStatus(l: Loan, s: LoanStatus, filter: FilterType, now: int)
    ensures Shows(filter, l.(status := s), now) == Shows(filter, l, now)
  {
  }
}
