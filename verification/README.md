# Vault reservation lifecycle in Dafny

Vault is a lending app. Owners list items, and borrowers reserve them for a
range of dates. An owner approves or rejects a request. The borrower picks
the item up and returns it, then may leave feedback. Users can also mark
items as favorites.

This project models the part of the system that decides what may happen to a
reservation (a *loan*), and how the bookings turn into the status an item
shows in the catalog. It covers:

- **Loan router** (`loan.dfy`, module `LoanRouter`). Booking a range, with
  its inclusive overlap check. The five transitions: approve, reject, cancel,
  mark as borrowed, mark as returned. The reads that list an item's bookings.
  Each mutation is a decision function (its checks in the router's order,
  then the row it writes) plus a method of the class `LoanTable`, which
  holds the loans table and writes the row back.
  - The table invariant `LoanTable.Valid` says that no two loans of one item
    that still hold their dates overlap (`NoDoubleBooking`), and that every
    loan's timestamps agree with its status (`Coherent`).
  - Every method preserves this invariant.
- **Item router** (`item.ts` → `item.dfy`, module `ItemRouter`). The
  effective-status calculator, the catalog reads, and the owner's create and
  update of an item, on the class `ItemTable`.
- **Feedback router** (`feedback.dfy`). One review per returned loan, by its
  borrower, and the visibility filter on an item's reviews. The class
  `FeedbackTable` keeps "one per loan" as its invariant.
- **Favorite router** (`favorite.dfy`). Toggling a (user, item) pair in the
  favorites set.
- **Web and mobile clients**, where they repeat the server's date rules:
  - the borrower's reservation list and its current/past/future tabs
    (`reservations_list.dfy`);
  - the badge and buttons on a reservation card, checked against the
    router's guards (`reservation_card.dfy`);
  - the mobile reservation form as a class with its state fields
    (`reservation_modal.dfy`);
  - the web dialog's disabled-dates loop, kept as a `while` loop, and its
    submit guard (`reserve_dialog.dfy`).

How time is modelled:
- Instants are integers in milliseconds.
- `Dates.Day(t)`, the instant floored to a multiple of `DayMs` (86 400 000),
  stands for `setHours(0, 0, 0, 0)`. "One day later" is `+ DayMs`.
- The clock is a parameter, `now`. Where the code uses today's midnight, the
  model uses `Day(now)`.
- The model compares raw instants where the code does:
  - `create`'s conflict check;
  - `getFutureReservations`' filter against today's midnight;
  - the dialog's submit guard.
- It compares days where the code normalises: `markAsBorrowed`,
  `getCurrentUserReservation`, the effective status and all client
  predicates.

How the data is modelled:
- Tables are sequences whose row ids are their positions. The favorites
  table is a set of pairs.
- Errors are `NotFound`, `Forbidden`, `BadRequest(message)` and `Conflict`.
- `ORDER BY` is an insertion sort on the ordering key. Its results are
  proved sorted and to hold exactly the selected rows.

Some behaviour that the proofs make explicit:
- The reservation card hides "Cancel" on a pending request whose start day
  has come, although the router would accept the cancellation
  (`HiddenButAccepted`).
- An overdue loan stops counting as a booking that covers today, so the
  catalog may show the item as available while it is still out
  (`PastDueIsNotActiveToday`).
- The list's tabs look only at dates, so cancelled and rejected loans still
  appear under "future" (`TabsIgnoreStatus`).
- `reject`'s `borrowedAt` guard can never fire on a coherent loan
  (`RejectBorrowedGuardRedundant`).
- The mobile form compares whole days. It accepts an end earlier than the
  start on the same day, which the router then refuses with BAD_REQUEST
  (`SameDayInversionAccepted`). Apart from that case, a range the form
  accepts never gets CONFLICT (`AcceptedRangeOutcome`).

## Model

| member | source | states |
|---|---|---|
| Dates.Day | packages/api/src/router/item.ts:20-21 | the midnight of an instant: a multiple of a day, at most the instant and less than a day before it |
| Common.Trim | apps/expo/src/components/ReservationModal.tsx:167 | no whitespace at either end; a contiguous slice of the text starting right after its leading whitespace, with only whitespace after it |
| Common.TrimEmptyIffBlank | apps/expo/src/components/ReservationModal.tsx:167 | trimming leaves nothing exactly when the text is all whitespace |
| Common.TrimIdempotent | apps/expo/src/components/ReservationModal.tsx:167 | trimming a trimmed text changes nothing |
| Common.TrimmedOrNull | apps/expo/src/components/ReservationModal.tsx:167 | `notes.trim() \|\| null`: null iff the notes are all whitespace, otherwise the notes without leading or trailing whitespace |
| LoanRouter.HasOverlap | packages/api/src/router/loan.ts:51-72 | true iff some loan of the item has status pending, approved, reserved or active, has both dates, and meets the new range inclusively on raw instants |
| LoanRouter.CreateLoan | packages/api/src/router/loan.ts:11-100 | succeeds iff the item exists, the caller does not own it, start <= end and nothing overlaps. The new row: next id, the caller as borrower, the input dates and notes, requested now. It is `pending` with no approvedAt when the item requires approval, else `reserved` with approvedAt = now. borrowedAt and returnedAt are unset. Its timestamps are coherent |
| LoanRouter.CreateErrorOrder | packages/api/src/router/loan.ts:26-79 | each error holds exactly when the earlier checks passed and its own fails, in the order NOT_FOUND, FORBIDDEN, BAD_REQUEST, CONFLICT |
| LoanRouter.CreateKeepsNoDoubleBooking | packages/api/src/router/loan.ts:51-97 | appending an accepted booking keeps per-item date ranges of holding loans pairwise disjoint |
| LoanRouter.ApproveLoan | packages/api/src/router/loan.ts:208-262 | FORBIDDEN iff the caller does not own the item. Success iff the owner asks and the loan is pending; any other failure is "Only pending reservations can be approved". On success only the status (approved) and approvedAt (now) change |
| LoanRouter.RejectLoan | packages/api/src/router/loan.ts:264-329 | FORBIDDEN iff the caller does not own the item. "Only pending, approved, or reserved…" iff the owner asks and the status is another one. Success iff the owner asks, the status is pending, approved or reserved, and the loan is not picked up. On success only the status changes: rejected iff it was pending, cancelled otherwise |
| LoanRouter.CancelLoan | packages/api/src/router/loan.ts:360-412 | FORBIDDEN iff the caller is not the borrower. Success iff the borrower asks and the status is pending, approved or reserved; any other failure is the "Only pending, approved, or reserved…" BAD_REQUEST. On success only the status (cancelled) changes |
| LoanRouter.MarkAsBorrowedLoan | packages/api/src/router/loan.ts:414-496 | FORBIDDEN iff the caller is neither borrower nor owner. Success iff one of them asks, the loan is not picked up, it is approved or reserved, and today's day is not before the start's day (when there is a start). "Cannot mark as borrowed before the reserved start date" iff only that day check fails. On success only the status (active) and borrowedAt (now) change |
| LoanRouter.ReturnedEnd | packages/api/src/router/loan.ts:541-563 | the end after a return is the earlier of the old end and the return instant; an unset end stays unset |
| LoanRouter.MarkAsReturnedLoan | packages/api/src/router/loan.ts:498-578 | FORBIDDEN iff the caller is not the borrower. "Only active (borrowed) reservations…" iff the borrower asks and the loan is not active. Success iff the borrower asks, the loan is active and borrowedAt is set. On success only the status (returned), returnedAt (now) and the end (`ReturnedEnd`) change |
| LoanRouter.TransitionOutcome | packages/api/src/router/loan.ts:208-578 | each action succeeds iff the caller is admitted (`MayAct`) and the loan passes that action's status and date checks (`Admits`, including the start-day check for both owner and borrower on pick-up). It fails with BAD_REQUEST iff the caller is admitted and a check fails, and with nothing but FORBIDDEN or BAD_REQUEST. A success stamps approvedAt, borrowedAt or returnedAt with now for approve, pick-up and return, and no timestamp for reject and cancel |
| LoanRouter.ForbiddenIffNotAdmitted | packages/api/src/router/loan.ts:208-578 | each transition fails with FORBIDDEN exactly when the caller is not admitted: owner (approve, reject), borrower (cancel, return), either (pick-up) |
| LoanRouter.TransitionFollowsStep | packages/api/src/router/loan.ts:208-578 | a successful transition is an edge of the state machine: pending→approved; pending→rejected or approved/reserved→cancelled by reject; pending/approved/reserved→cancelled by cancel; approved/reserved→active; active→returned |
| LoanRouter.TerminalIsFinal | packages/api/src/router/loan.ts:226-530 | returned, cancelled and rejected loans never change: every action on them fails with FORBIDDEN or BAD_REQUEST |
| LoanRouter.TransitionKeepsInvariants | packages/api/src/router/loan.ts:243-563 | a successful transition keeps timestamps coherent with the status. It keeps the loan's identity and start date. It never extends the end date, and never moves a loan back into a holding status |
| LoanRouter.RejectBorrowedGuardRedundant | packages/api/src/router/loan.ts:290-305 | on a coherent loan the "already borrowed" BAD_REQUEST of reject is unreachable; the status guard already excludes picked-up loans |
| LoanRouter.ReturnTruncatesEnd | packages/api/src/router/loan.ts:541-563 | a return sets the end date to the return instant when that is earlier, and leaves it otherwise; the end never increases |
| LoanRouter.NarrowingKeepsNoDoubleBooking | packages/api/src/router/loan.ts:245-563 | rewriting one row with a narrower one (the shape of every transition's UPDATE) keeps the no-double-booking invariant |
| LoanRouter.FutureReservations | packages/api/src/router/loan.ts:102-131 | exactly the item's holding, fully dated loans whose start or end is at or after today's midnight, in ascending start order, each as often as the table holds it |
| LoanRouter.CurrentUserReservation | packages/api/src/router/loan.ts:133-167 | null iff none of the caller's holding loans on the item covers today by days. Otherwise one that does, with the earliest start among them |
| LoanRouter.ByOwner | packages/api/src/router/loan.ts:169-206 | exactly the loans on items the caller owns, each as often as the table holds it, newest request first |
| LoanRouter.ByBorrower | packages/api/src/router/loan.ts:331-358 | exactly the caller's loans, each as often as the table holds it, newest request first |
| LoanRouter.LoanTable.Create | packages/api/src/router/loan.ts:11-100 | returns `CreateLoan`'s outcome and appends the row on success only; keeps `Valid` and the item foreign key |
| LoanRouter.LoanTable.Approve | packages/api/src/router/loan.ts:208-262 | NOT_FOUND for an unknown loan, else `ApproveLoan` (FORBIDDEN unless owner, BAD_REQUEST unless pending, then approved with approvedAt = now); writes the row on success only; keeps `Valid` |
| LoanRouter.LoanTable.Reject | packages/api/src/router/loan.ts:264-329 | NOT_FOUND, else `RejectLoan` (owner only; pending, approved or reserved and not picked up; rejected from pending, cancelled otherwise); writes on success only; keeps `Valid` |
| LoanRouter.LoanTable.Cancel | packages/api/src/router/loan.ts:360-412 | NOT_FOUND, else `CancelLoan` (borrower only; pending, approved or reserved; always cancelled; borrowedAt not consulted); writes on success only; keeps `Valid` |
| LoanRouter.LoanTable.MarkAsBorrowed | packages/api/src/router/loan.ts:414-496 | NOT_FOUND, else `MarkAsBorrowedLoan`. Borrower or owner only. BAD_REQUEST if already picked up, if not approved or reserved, or if today's day is before the start's day. On success: active, borrowedAt = now. Writes on success only; keeps `Valid` |
| LoanRouter.LoanTable.MarkAsReturned | packages/api/src/router/loan.ts:498-578 | NOT_FOUND, else `MarkAsReturnedLoan` (borrower only; active with borrowedAt; returned, returnedAt = now, end cut to now when earlier); writes on success only; keeps `Valid` |
| ItemRouter.HasActiveReservationToday | packages/api/src/router/item.ts:13-39 | true iff some loan holds its dates and today's day lies between the days of its start and end |
| ItemRouter.ComputeEffectiveStatus | packages/api/src/router/item.ts:44-63 | borrowed iff stored borrowed. Available iff stored available and no loan is active today. Unavailable iff stored unavailable, or stored available with a loan active today |
| ItemRouter.EffectiveStatusOnlyRestricts | packages/api/src/router/item.ts:52-62 | the derived status is the stored one, except that available may become unavailable |
| ItemRouter.EffectiveStatusIdempotent | packages/api/src/router/item.ts:44-63 | deriving again from the derived status changes nothing |
| ItemRouter.ReleasedLoansIgnored | packages/api/src/router/item.ts:24-30 | adding loans that are terminal or lack a date never changes the derived status |
| ItemRouter.EffectiveStatusMonotone | packages/api/src/router/item.ts:23-38 | adding loans never turns an unavailable result into an available one |
| ItemRouter.EffectiveStatusExamples | packages/api/src/router/item.ts:44-63 | an active loan from yesterday to tomorrow makes an available item unavailable; one five to seven days ahead does not |
| ItemRouter.LoansOf | packages/api/src/router/item.ts:72-74 | exactly the loans on the given item |
| ItemRouter.CurrentReservationMakesUnavailable | packages/api/src/router/item.ts:13-39 | when `getCurrentUserReservation` finds a booking, an available item is shown as unavailable |
| ItemRouter.WithStatus | packages/api/src/router/item.ts:78-81 | each row, in order, paired with its derived status |
| ItemRouter.Catalog | packages/api/src/router/item.ts:66-83 | exactly the selected items, each as often as the table holds it, newest first, each with its derived status |
| ItemRouter.All | packages/api/src/router/item.ts:66-83 | exactly the listed items, each as often as the table holds it, newest first, each carrying its derived status |
| ItemRouter.ById | packages/api/src/router/item.ts:85-106 | null iff the id is unknown; otherwise that item with its derived status |
| ItemRouter.ByOwner | packages/api/src/router/item.ts:108-127 | exactly the owner's items, listed or not, each as often as the table holds it, newest first, each with its derived status |
| ItemRouter.CreateItem | packages/api/src/router/item.ts:129-140 | the new row has the next id, the caller as owner, the input columns, is listed, and is stamped now |
| ItemRouter.UpdateItem | packages/api/src/router/item.ts:142-200 | NOT_FOUND iff the id is unknown, FORBIDDEN iff the caller is not the owner, success otherwise |
| ItemRouter.UpdateKeepsIdentity | packages/api/src/router/item.ts:174-185 | an update keeps the id, owner and creation time, and stamps updatedAt with now |
| ItemRouter.ListingUpdateDropsOtherColumns | packages/api/src/router/item.ts:174-177 | when isListed is given, the row changes only in isListed and updatedAt, whatever else the request carries |
| ItemRouter.ColumnUpdateIdempotent | packages/api/src/router/item.ts:178-185 | without isListed, each given column is written and the rest kept; applying the same change again alters only updatedAt |
| ItemRouter.ItemTable.Create | packages/api/src/router/item.ts:129-140 | appends `CreateItem`'s row and returns it; row ids stay positions |
| ItemRouter.ItemTable.Update | packages/api/src/router/item.ts:142-200 | returns `UpdateItem`'s outcome and rewrites that one row on success only |
| FeedbackRouter.HasFeedbackFor | packages/api/src/router/feedback.ts:51-61 | true iff some feedback is attached to the loan |
| FeedbackRouter.CreateFeedback | packages/api/src/router/feedback.ts:11-76 | succeeds iff the content is non-empty, the loan exists, the caller is its borrower, it is returned and has no feedback. The new row carries the next id, the loan, the caller, the loan's item, the content, the visibility and now |
| FeedbackRouter.CreateFeedbackErrors | packages/api/src/router/feedback.ts:15-61 | each error holds exactly when the earlier checks passed and its own fails: empty content, NOT_FOUND, FORBIDDEN, not returned, already reviewed |
| FeedbackRouter.CreateFeedbackKeepsOnePerLoan | packages/api/src/router/feedback.ts:51-73 | accepting a feedback keeps at most one feedback per loan |
| FeedbackRouter.CreateFeedbackKeepsJustified | packages/api/src/router/feedback.ts:35-73 | every accepted feedback is by the borrower of a returned loan, on that loan's item |
| FeedbackRouter.TransitionKeepsJustified | packages/api/src/router/loan.ts:208-578 | no loan transition invalidates existing feedback: a returned loan never changes |
| FeedbackRouter.NewLoanKeepsJustified | packages/api/src/router/loan.ts:81-97 | a new booking leaves every feedback justified |
| FeedbackRouter.GetByItem | packages/api/src/router/feedback.ts:78-121 | NOT_FOUND iff the item is unknown. Otherwise exactly the item's feedback that the caller may see, newest first: all of it for the owner, the public part for anyone else, signed in or not. Each row appears as often as the table holds it |
| FeedbackRouter.OwnerSeesMore | packages/api/src/router/feedback.ts:93-102 | a non-owner sees only public feedback, all of which the owner also sees |
| FeedbackRouter.FeedbackTable.Create | packages/api/src/router/feedback.ts:11-76 | returns `CreateFeedback`'s outcome, appends on success only, keeps one feedback per loan, and keeps feedback justified |
| FavoriteRouter.Toggled | packages/api/src/router/favorite.ts:11-43 | the pair is in the result iff it was not before; every other pair is unchanged |
| FavoriteRouter.GetByUser | packages/api/src/router/favorite.ts:45-56 | exactly the item ids the user has favorited |
| FavoriteRouter.IsFavorited | packages/api/src/router/favorite.ts:58-71 | true iff the item is among the user's favorites as `getByUser` lists them |
| FavoriteRouter.ToggleTwice | packages/api/src/router/favorite.ts:16-42 | toggling the same pair twice restores the favorites |
| FavoriteRouter.ToggleFlips | packages/api/src/router/favorite.ts:58-71 | after a toggle `isFavorited` flips for that pair and is unchanged for every other |
| FavoriteRouter.ToggleChangesOneList | packages/api/src/router/favorite.ts:26-56 | a toggle removes the item from, or adds it to, the toggling user's list and leaves other users' lists unchanged |
| FavoriteRouter.FavoriteTable.Toggle | packages/api/src/router/favorite.ts:11-43 | flips the pair in the set and returns true iff it was absent, which is what `isFavorited` then reports |
| MyReservationsList.IsCurrentReservation | apps/nextjs/src/app/_components/my-reservations-list.tsx:21-32 | when true, both dates are set, the start instant is before tomorrow's midnight and the end instant is not before today's; a current reservation is neither past nor future |
| MyReservationsList.IsPastReservation | apps/nextjs/src/app/_components/my-reservations-list.tsx:34-43 | true iff the end is set and its instant is before today's midnight; a past reservation whose days are in order is not future |
| MyReservationsList.IsFutureReservation | apps/nextjs/src/app/_components/my-reservations-list.tsx:45-54 | true iff the start is set and its instant is at or after tomorrow's midnight |
| MyReservationsList.FilterReservations | apps/nextjs/src/app/_components/my-reservations-list.tsx:119-140 | exactly the reservations the chosen tab's predicate admits, each as often as the list holds it |
| MyReservationsList.FilterReservationsAppend | apps/nextjs/src/app/_components/my-reservations-list.tsx:119-140 | the tab filters a concatenation piecewise, so the order of the server's list is kept |
| MyReservationsList.FilterReservationsSingleton | apps/nextjs/src/app/_components/my-reservations-list.tsx:119-140 | one reservation is listed, once, exactly when the tab shows it |
| MyReservationsList.AllTabKeepsEverything | apps/nextjs/src/app/_components/my-reservations-list.tsx:136-138 | the "all" tab returns the list unchanged, order included |
| MyReservationsList.TabsPartition | apps/nextjs/src/app/_components/my-reservations-list.tsx:21-54 | with both dates and the start day not after the end day, exactly one of current, past and future holds |
| MyReservationsList.InvertedRangeIsPastAndFuture | apps/nextjs/src/app/_components/my-reservations-list.tsx:34-54 | a reservation whose end day precedes its start day can be past and future at once |
| MyReservationsList.UndatedOnlyUnderAll | apps/nextjs/src/app/_components/my-reservations-list.tsx:21-54 | a reservation without dates is listed only under "all" |
| MyReservationsList.TabsIgnoreStatus | apps/nextjs/src/app/_components/my-reservations-list.tsx:119-140 | the tab a reservation appears under does not depend on its status |
| MyReservationCard.GetStatusDisplay | apps/nextjs/src/app/_components/my-reservation-card.tsx:40-97 | the text is "borrowed" iff the loan is active, or approved or reserved with borrowedAt set. Otherwise approved reads "approved - ready to pick up", reserved "reserved", and pending, rejected, cancelled and returned read their own names. Destructive iff cancelled or rejected; outline iff pending |
| MyReservationCard.BorrowedLabelIffActive | apps/nextjs/src/app/_components/my-reservation-card.tsx:40-97 | on a coherent loan the badge reads "borrowed" exactly while the loan is active |
| MyReservationCard.IsFuture | apps/nextjs/src/app/_components/my-reservation-card.tsx:99-106 | true iff the start is set and its instant is at or after tomorrow's midnight |
| MyReservationCard.CanCancel | apps/nextjs/src/app/_components/my-reservation-card.tsx:108-114 | true iff the status is pending, approved or reserved and the start is set at or after tomorrow's midnight (its day is after today); when true the router accepts the borrower's cancel |
| MyReservationCard.IsApprovedNotBorrowed | apps/nextjs/src/app/_components/my-reservation-card.tsx:174-176 | when true, the router accepts the borrower's cancel and the badge reads "approved - ready to pick up" or "reserved" |
| MyReservationCard.CanMarkAsBorrowed | apps/nextjs/src/app/_components/my-reservation-card.tsx:178-187 | true iff the loan is approved or reserved, not picked up, and its start is set before tomorrow's midnight (its day has come); when true `canCancel` is false |
| MyReservationCard.ShowCancelButton | apps/nextjs/src/app/_components/my-reservation-card.tsx:190 | when true, the router accepts the borrower's cancel; for a pending loan the start day must be ahead |
| MyReservationCard.IsActive | apps/nextjs/src/app/_components/my-reservation-card.tsx:193 | when true, the badge is "borrowed"; on a coherent loan it holds iff the loan is active |
| MyReservationCard.IsPastDue | apps/nextjs/src/app/_components/my-reservation-card.tsx:196-204 | when true, the loan is active and picked up, and its end instant is before today's midnight |
| MyReservationCard.CardButtons | apps/nextjs/src/app/_components/my-reservation-card.tsx:297-342 | Cancel shows iff pending/approved/reserved, and either the start day is ahead or the loan is approved/reserved and not picked up. Pick-up implies Cancel is shown too. Return excludes both |
| MyReservationCard.CancelExcludesPickUp | apps/nextjs/src/app/_components/my-reservation-card.tsx:108-187 | `canCancel` and `canMarkAsBorrowed` are never both true |
| MyReservationCard.ButtonsAreAccepted | apps/nextjs/src/app/_components/my-reservation-card.tsx:174-193 | every button the card shows is an action the router accepts from the borrower at that moment |
| MyReservationCard.HiddenButAccepted | apps/nextjs/src/app/_components/my-reservation-card.tsx:108-193 | on a coherent loan, the router accepts a cancel the card hides exactly for a pending loan whose start day has come. Pick-up (for a dated loan) and return buttons show exactly when the router accepts |
| MyReservationCard.PastDueIsNotActiveToday | apps/nextjs/src/app/_components/my-reservation-card.tsx:193-204 | past due means active, picked up, and the end day behind today; such a loan no longer counts as active today for the catalog |
| MyReservationCard.ActiveTodayIsCurrent | apps/nextjs/src/app/_components/my-reservations-list.tsx:21-32 | the catalog's "active today" is the list's "current" restricted to holding loans |
| ReservationModal.DateProblem | apps/expo/src/components/ReservationModal.tsx:115-155 | "in the past" iff the start day is before today. Else "end before start" iff the end day is before the start day. Else "already reserved" iff the reservations are loaded and one meets the range by days. Otherwise no problem |
| ReservationModal.OverlapIsShown | apps/expo/src/components/ReservationModal.tsx:134-151 | a range with its start day not before today that meets one of the router's conflict rows meets, by days, one of the reservations the form loads |
| ReservationModal.AcceptedRangeHasNoOverlap | apps/expo/src/components/ReservationModal.tsx:134-151 | a range the form accepts against `getFutureReservations` meets none of the router's conflict rows |
| ReservationModal.AcceptedRangeOutcome | apps/expo/src/components/ReservationModal.tsx:115-169 | the router never answers CONFLICT to an accepted range, and BAD_REQUEST only for an end before the start on the same day |
| ReservationModal.SameDayInversionAccepted | apps/expo/src/components/ReservationModal.tsx:128-131 | the form accepts 10:00 to 09:00 of one future day, and the router refuses it with "End date must be after start date" |
| ReservationModal.CreateErrorText | apps/expo/src/components/ReservationModal.tsx:67-80 | a non-empty message, the router's own one for BAD_REQUEST |
| ReservationModal.ReservationForm.constructor | apps/expo/src/components/ReservationModal.tsx:34-43 | a fresh form starts now, ends a day later, with no notes and no error |
| ReservationModal.ReservationForm.HandleStartDateChange | apps/expo/src/components/ReservationModal.tsx:91-104 | a selected start replaces the start, and pushes the end to the day after it when the end was earlier, so start <= end; no selection changes nothing |
| ReservationModal.ReservationForm.HandleEndDateChange | apps/expo/src/components/ReservationModal.tsx:106-113 | a selected end replaces the end; nothing else changes |
| ReservationModal.ReservationForm.ValidateDates | apps/expo/src/components/ReservationModal.tsx:115-155 | true iff `DateProblem` finds nothing; otherwise the error shows that problem; dates and notes unchanged |
| ReservationModal.ReservationForm.HandleSubmit | apps/expo/src/components/ReservationModal.tsx:157-169 | clears the error, then yields a request (the dates and trimmed-or-null notes) exactly when validation finds no problem |
| ReservationModal.ReservationForm.OnCreated | apps/expo/src/components/ReservationModal.tsx:54-66 | after a successful create the form is reset to now, a day later, no notes, no error |
| ReservationModal.ReservationForm.OnCreateError | apps/expo/src/components/ReservationModal.tsx:67-80 | a failed create shows `CreateErrorText` and leaves the dates and notes |
| ReserveItemDialog.DayRun | apps/nextjs/src/app/_components/reserve-item-dialog.tsx:94-98 | the instants start, start + 1 day, … not past the end: (end − start) div day + 1 of them when start <= end, none otherwise |
| ReserveItemDialog.PushRun | apps/nextjs/src/app/_components/reserve-item-dialog.tsx:94-98 | the inner `while` loop appends exactly the run `DayRun(start, end)` to the dates it is given |
| ReserveItemDialog.DisabledDates | apps/nextjs/src/app/_components/reserve-item-dialog.tsx:88-101 | the nested loops produce, in order, each fully dated reservation's run and nothing for the others or before loading |
| ReserveItemDialog.IsDisabled | apps/nextjs/src/app/_components/reserve-item-dialog.tsx:162-175 | every instant before today's midnight is disabled; from today on, an instant is disabled iff it lies within the day of some disabled date |
| ReserveItemDialog.RunDaysInRange | apps/nextjs/src/app/_components/reserve-item-dialog.tsx:94-98 | every pushed date's day lies between the start's day and the end's day |
| ReserveItemDialog.ReservedDayOrigin | apps/nextjs/src/app/_components/reserve-item-dialog.tsx:88-101 | every disabled date falls on a day of the reservation that produced it |
| ReserveItemDialog.DisabledOnlyReservedDays | apps/nextjs/src/app/_components/reserve-item-dialog.tsx:162-175 | the calendar disables only past days and days some reservation covers |
| ReserveItemDialog.EndDayLeftEnabled | apps/nextjs/src/app/_components/reserve-item-dialog.tsx:88-101 | a reservation from 10:00 on one day to 09:00 the next disables only its first day; the end's day stays selectable |
| ReserveItemDialog.CorrectedRunCoversRange | apps/nextjs/src/app/_components/reserve-item-dialog.tsx:88-101 | stepping from the start's midnight disables a day iff it lies between the start's day and the end's day |
| ReserveItemDialog.HandleSubmit | apps/nextjs/src/app/_components/reserve-item-dialog.tsx:123-140 | submits iff both ends are chosen and to >= from, with the dates unchanged and trimmed-or-null notes; "Please select a date range" iff an end is missing |
| ReserveItemDialog.SubmittedRangeIsOrdered | apps/nextjs/src/app/_components/reserve-item-dialog.tsx:123-140 | a submitted range never draws the router's BAD_REQUEST; only NOT_FOUND, FORBIDDEN or CONFLICT remain |

## Left out

- Authentication: the session lookup, UNAUTHORIZED, and the `auth.ts` user search are not modelled. The caller's id is a parameter.
- Input parsing (zod) is not modelled, apart from feedback content needing at least one character. Ids are table positions, not UUIDs.
- The re-fetch after every UPDATE, and its "not found after update" error, are not modelled. In a sequential model the row just written is always there.
- Concurrency: `create` reads and then inserts, and the UPDATEs carry no status guard. Every operation here runs alone, and nothing is claimed about races or atomicity.
- The server clock (`NOW()`), the JavaScript clock (`new Date()`) and the client clock are one parameter, `now`. Time zones, daylight saving and calendar months are not modelled: a day is 86 400 000 ms.
- Common.Trim: only space, tab, line feed and carriage return count as whitespace, not the full Unicode set JavaScript's `trim` uses.
- `packages/db/src/schema.ts` is behind the routers: no `reserved` status, no reservation dates, no `isListed`. The model takes the statuses from loan.ts and assumes a new item is listed.
- The items table's `updatedAt` is stamped on every update. This follows the column's update hook.
- Pinecone search, image upload and other external services are not part of this model.
- Presentation is not modelled: colours, icons, toasts, pending flags, dialogs, date formatting, the item grid's search filter, and picker closing on Android.
- The duplicated card logic in `LoanCard.tsx`, `BorrowerLoanCard.tsx` and `reservation-card.tsx` is not part of this model.
- `ORDER BY` ties: the database's order among equal keys is not defined. The model claims only sorted order and the right set of rows, not a particular tie order.
- FavoriteRouter.GetByUser returns a set: the order of the rows, and their join to the item, are not modelled.
- Favorites are a set of pairs, so duplicate rows cannot arise. `toggle` does not check that the item exists; the model does not either.
- Reads that join related rows (the item's owner, the borrower's name) return only the loan, item or feedback row.
- The pick-up offered for pending loans in `BorrowerLoanCard.tsx` is not part of this model. The router refuses it.

## Findings

| source | as written | input that shows it | evidently intended | confidence | as-written member | corrected member |
|---|---|---|---|---|---|---|
| apps/nextjs/src/app/_components/reserve-item-dialog.tsx:88-101 | the loop steps whole days from the reservation's start instant while `current <= end`, and disables the days it visits | a reservation from 10:00 on day d to 09:00 on day d+1: the loop visits only day d, so day d+1 stays selectable although it is booked | disable every day from the start's day to the end's day, by stepping from the start's midnight | low, not executed | ReserveItemDialog.EndDayLeftEnabled | ReserveItemDialog.CorrectedRunCoversRange |
