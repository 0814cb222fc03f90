/**
 * The web reservation dialog: the calendar greys out past days and the days
 * of the item's upcoming reservations, and the submit button checks the
 * selected range before sending it to the loan router.
 */
module ReserveItemDialog {
  import opened Common
  import opened Dates
  import opened Schema
  import LoanRouter

  /**
   * The instants the inner loop of the disabled-dates computation pushes for
   * one reservation: `cur`, then one day later each time, while not past `end`.
   */
  function DayRun(cur: int, end: int): (r: seq<int>)
    ensures forall k :: 0 <= k < |r| ==> r[k] == cur + k * DayMs && r[k] <= end
    ensures |r| == if cur <= end then (end - cur) / DayMs + 1 else 0
    decreases end - cur
  {
    if cur > end then []
    else
      var rest := DayRun(cur + DayMs, end);
      assert forall k :: 1 <= k <= |rest| ==> ([cur] + rest)[k] == rest[k - 1];
      [cur] + rest
  }

  /** What one reservation contributes to the disabled dates: its run, or nothing when a date is missing. */
  function RunOf(r: Loan): seq<int> {
    if r.reservedStartDate.Some? && r.reservedEndDate.Some? then DayRun(r.reservedStartDate.value, r.reservedEndDate.value)
    else []
  }

  /** The disabled dates of a list of reservations, in the order the loop produces them. */
  function ReservedDays(rs: seq<Loan>): seq<int> {
    if rs == [] then [] else ReservedDays(rs[..|rs| - 1]) + RunOf(rs[|rs| - 1])
  }

  /** The inner loop of the disabled-dates computation (lines 94-98): push `start`, a day later, … while not past `end`. */
  method PushRun(dates: seq<int>, start: int, end: int) returns (disabledDates: seq<int>)
    ensures disabledDates == dates + DayRun(start, end)
  {
    disabledDates := dates;
    var current := start;
    while current <= end
      invariant disabledDates + DayRun(current, end) == dates + DayRun(start, end)
      decreases end - current
    {
      assert DayRun(current, end) == [current] + DayRun(current + DayMs, end);
      disabledDates := disabledDates + [current];
      current := current + DayMs;
    }
    assert DayRun(current, end) == [];
  }

  /**
   * The disabled-dates computation (lines 88-101), kept as the loop it is:
   * for each reservation with both dates, every instant from its start in
   * steps of one day up to its end.
   */
  method DisabledDates(futureReservations: Option<seq<Loan>>) returns (disabledDates: seq<int>)
    ensures disabledDates == if futureReservations.Some? then ReservedDays(futureReservations.value) else []
  {
    disabledDates := [];
    if futureReservations.None? {
      return;
    }
    var rs := futureReservations.value;
    var i := 0;
    while i < |rs|
      invariant 0 <= i <= |rs|
      invariant disabledDates == ReservedDays(rs[..i])
    {
      var reservation := rs[i];
      assert rs[..i + 1][..i] == rs[..i];
      assert ReservedDays(rs[..i + 1]) == ReservedDays(rs[..i]) + RunOf(reservation);
      if reservation.reservedStartDate.Some? && reservation.reservedEndDate.Some? {
        disabledDates := PushRun(disabledDates, reservation.reservedStartDate.value, reservation.reservedEndDate.value);
      }
      i := i + 1;
    }
    assert rs[..|rs|] == rs;
  }

  /** Sharing a day with a disabled date is lying within that date's day. */
  lemma DisabledDayWindows(date: int, disabledDates: seq<int>)
    ensures forall k :: 0 <= k < |disabledDates| ==>
              (Day(disabledDates[k]) == Day(date) <==> Day(disabledDates[k]) <= date < Day(disabledDates[k]) + DayMs)
  {
    forall k | 0 <= k < |disabledDates| {
      WithinDayOf(Day(disabledDates[k]), date);
    }
  }

  /** The calendar's `disabled` callback (lines 162-175): a day before today, or one of the disabled dates' days. */
  function IsDisabled(date: int, now: int, disabledDates: seq<int>): (b: bool)
    ensures date < Day(now) ==> b
    ensures Day(now) <= date ==>
              (b <==> exists k :: 0 <= k < |disabledDates| && Day(disabledDates[k]) <= date < Day(disabledDates[k]) + DayMs)
  {
    DisabledDayWindows(date, disabledDates);
    Day(date) < Day(now) || exists k :: 0 <= k < |disabledDates| && Day(disabledDates[k]) == Day(date)
  }

  /** Every day the loop disables lies inside the reservation's range of days. */
  lemma RunDaysInRange(start: int, end: int, k: nat)
    requires k < |DayRun(start, end)|
    ensures Day(start) <= Day(DayRun(start, end)[k]) <= Day(end)
  {
    var x := DayRun(start, end)[k];
    DayMonotone(start, x);
    DayMonotone(x, end);
  }

  /** The reservation has both dates and `day` lies between their days. */
  predicate WithinDays(r: Loan, day: int) {
    r.reservedStartDate.Some? && r.reservedEndDate.Some? &&
    Day(r.reservedStartDate.value) <= day <= Day(r.reservedEndDate.value)
  }

  /** Every disabled date falls on a day of the reservation that produced it. */
  lemma {:induction false} ReservedDayOrigin(rs: seq<Loan>, k: nat)
    requires k < |ReservedDays(rs)|
    ensures exists i :: 0 <= i < |rs| && WithinDays(rs[i], Day(ReservedDays(rs)[k]))
  {
    var n := |rs| - 1;
    var front := ReservedDays(rs[..n]);
    var x := ReservedDays(rs)[k];
    if k < |front| {
      ReservedDayOrigin(rs[..n], k);
      var i :| 0 <= i < |rs[..n]| && WithinDays(rs[..n][i], Day(front[k]));
      assert rs[..n][i] == rs[i];
    } else {
      var r := rs[n];
      assert RunOf(r) != [];
      RunDaysInRange(r.reservedStartDate.value, r.reservedEndDate.value, k - |front|);
      assert WithinDays(rs[n], Day(x));
    }
  }

  /** The calendar greys out nothing but past days and days some reservation covers. */
  lemma DisabledOnlyReservedDays(rs: seq<Loan>, date: int, now: int)
    requires IsDisabled(date, now, ReservedDays(rs))
    ensures Day(date) < Day(now) || exists i :: 0 <= i < |rs| && WithinDays(rs[i], Day(date))
  {
    if Day(date) >= Day(now) {
      var k :| 0 <= k < |ReservedDays(rs)| && Day(ReservedDays(rs)[k]) == Day(date);
      ReservedDayOrigin(rs, k);
    }
  }

  /**
   * As written the loop can miss the last day: when the end has an earlier
   * time of day than the start, stepping whole days from the start overshoots
   * the end before reaching the end's day. A reservation from 10:00 on one
   * day to 09:00 on the next disables only the first day.
   */
  lemma EndDayLeftEnabled(now: int)
    ensures var d := Day(now) + DayMs;
            var start := d + 36_000_000;
            var end := d + DayMs + 32_400_000;
      && Day(now) < Day(start) < Day(end)
      && DayRun(start, end) == [start]
      && !IsDisabled(end, now, DayRun(start, end))
  {
    var d := Day(now) + DayMs;
    var start := d + 36_000_000;
    var end := d + DayMs + 32_400_000;
    DayNext(now);
    DayOfMidnight(d);
    DayOfMidnight(d + DayMs);
    DayMonotone(d, start);
    DayMonotone(d + DayMs, end);
    assert Day(start) == d;
    assert Day(end) == d + DayMs;
    assert |DayRun(start, end)| == 1;
  }

  /** Every midnight from `cur` (a midnight) to `end` is in the run from `cur`. */
  lemma {:induction false} RunHasMidnight(cur: int, end: int, x: int)
    requires cur % DayMs == 0 && x % DayMs == 0 && cur <= x <= end
    ensures x in DayRun(cur, end)
    decreases end - cur
  {
    if x != cur {
      MidnightsApart(cur, x);
      RunHasMidnight(cur + DayMs, end, x);
      assert DayRun(cur, end) == [cur] + DayRun(cur + DayMs, end);
    }
  }

  /** The corrected run: step from the start's midnight instead of the start itself. */
  function CorrectedRun(start: int, end: int): seq<int> {
    DayRun(Day(start), end)
  }

  /**
   * The corrected run disables exactly the days of the reservation: a day is
   * among its days iff it lies between the start's day and the end's day.
   */
  lemma CorrectedRunCoversRange(start: int, end: int, date: int)
    ensures (exists k :: 0 <= k < |CorrectedRun(start, end)| && Day(CorrectedRun(start, end)[k]) == Day(date)) <==>
            Day(start) <= Day(date) <= Day(end)
  {
    var run := CorrectedRun(start, end);
    if Day(start) <= Day(date) <= Day(end) {
      RunHasMidnight(Day(start), end, Day(date));
      var k :| 0 <= k < |run| && run[k] == Day(date);
      DayOfMidnight(Day(date));
    }
    forall k | 0 <= k < |run| ensures Day(start) <= Day(run[k]) <= Day(end) {
      RunDaysInRange(Day(start), end, k);
      DayOfMidnight(Day(start));
    }
  }

  /** The outcome of `handleSubmit` (lines 123-140). */
  datatype Submission = Submitted(from: int, to: int, notes: Option<string>) | Refused(message: string)

  const NoRange := "Please select a date range"
  const EndBeforeStart := "End date must be after start date"

  function HandleSubmit(from: Option<int>, to: Option<int>, notes: string): (s: Submission)
    ensures s.Submitted? <==> from.Some? && to.Some? && from.value <= to.value
    ensures s.Submitted? ==> s.from == from.value && s.to == to.value && s.notes == TrimmedOrNull(notes)
    ensures s == Refused(NoRange) <==> from.None? || to.None?
  {
    if from.None? || to.None? then Refused(NoRange)
    else if to.value < from.value then Refused(EndBeforeStart)
    else Submitted(from.value, to.value, TrimmedOrNull(notes))
  }

  /** A submitted range always passes the router's date-order check: only NOT_FOUND, FORBIDDEN or CONFLICT can come back. */
  lemma SubmittedRangeIsOrdered(from: Option<int>, to: Option<int>, notes: string,
                                loans: seq<Loan>, items: seq<Item>, caller: UserId, itemId: ItemId, now: int)
    requires HandleSubmit(from, to, notes).Submitted?
    ensures var s := HandleSubmit(from, to, notes);
            var r := LoanRouter.CreateLoan(loans, items, caller, itemId, s.from, s.to, s.notes, now);
      r.Err? ==> r.error in {NotFound, Forbidden, Conflict}
  {
  }
}
