# Library room reservation front-end, modelled in Dafny

The Library-Reservation web client books study rooms of a university
library through an external booking API. The logic it adds on top of the API
lives in React handlers and helpers, and this project models that logic:

- **Room catalogue.** The page turns the facility list into rooms.
  - The room number comes from a trailing `(digits)` in `FAC_NM`.
  - The floor is the first of 2F/3F/4F the name contains.
  - A fixed table by floor and number range gives capacity, equipment and kind.
  - Exclusions then drop some rooms, and a display filter selects by floor and exact capacity.
- **Operating hours.** Exam periods are inclusive date ranges whose end bound is the last day's local midnight. In an exam period the grid shows 0 (labelled "24"), 1 and 9..23; otherwise it shows 8..23.
- **Grid reconciliation.** Each room's `roomOther` and `room` lists become one-hour reservations tagged "other" and "me". The lists are flattened. Then the user's own reservations of the day are overlaid: the first entry matching on room, hour and date is relabelled in place, and an unmatched reservation is appended.
- **The booking page.** It holds the user, the selected day, the rooms, the grid's reservations, the selected slots and the confirmation dialog.
  - A click on a cell covers these paths:
    - the login prompt;
    - the offer to cancel one of the user's bookings;
    - deselecting a slot;
    - the offer to restart the selection in another room;
    - the four-hours-a-day cap;
    - appending the slot.
  - Confirming a selection applies the one-hour-gap rule. It then books slot by slot in ascending hour order and counts successes and failures.
- **A room's row.** The row has one cell per operating hour. Each cell's status is available, booked or my-booking. The row tracks which cells are selected and which clicks reach the page.
- **The "My Reservations" dialog.**
  - It probes the response envelope.
  - It normalises keys with `||` and `??` fallbacks.
  - It sorts the list by date descending, then hour ascending.
  - It keeps today and later and groups by date; `Object.entries` lists the groups in ascending date order.
  - It shows room names through `formatRoomName`.
  - Cancel-all is a sequential loop.

API responses are inputs: a `Payload` value (a JSON-like datatype) or a call
that threw (`CallResult`). Booking and cancellation outcomes are sequences of
such responses supplied by the caller. Dates are `DateTime` values (year,
month, day, milliseconds since local midnight). Times are the literal strings
the code builds:
- grid cells pass the unpadded `"9:00"`;
- reservation start times are padded, `"09:00"`.

The model keeps four quirks of the code as written:
- A click finds the user's booking to cancel only from 10:00 on (`BookingRules.CancelOnlyFromTen`).
- Restarting the selection in another room skips the cap (`BookingPage.Page.ConfirmDialog`).
- The overlay does not de-duplicate (`GridReconciler.MergeStepDoesNotDeduplicate`).
- Date groups are listed ascending while the list is sorted descending (`MyReservations.DateGroupsAscending` beside `MyReservations.SortListCorrect`).

Files and modules, one module per file: `optional.dfy`, `js_text.dfy`
(parseInt, padStart, string order), `js_values.dfy` (response values and
envelope probing), `seq_utils.dfy` (filter, find, flat, stable sort),
`domain.dfy` (records, date and time strings), `operating_hours.dfy`,
`room_catalogue.dfy`, `grid_reconciler.dfy`, `booking_rules.dfy`,
`booking_page.dfy`, `room_row.dfy`, `my_reservations.dfy`.

## Model

| member | source | states |
|---|---|---|
| OperatingHours.ExamPeriodIff | src/lib/constants.ts:24-31 | a date is in the exam period iff some configured period contains it; the start day counts whole, the end day only at local midnight |
| OperatingHours.ExamPeriodsOrdered | src/lib/constants.ts:11-17 | every configured period starts no later than it ends, and each period ends before the next one starts |
| OperatingHours.LastDayAfterMidnightIsOutside | src/lib/constants.ts:24-31 | any moment after midnight on a period's last day is outside every exam period |
| OperatingHours.InsidePeriod | src/lib/constants.ts:24-31 | a date within a configured period is in the exam period |
| OperatingHours.OperatingHoursOf | src/lib/constants.ts:38-49 | in an exam period the hours are 0, 1, then 9..23 (17 values); otherwise exactly 8..23 (16 values) |
| OperatingHours.OperatingHoursIncreasing | src/lib/constants.ts:38-49 | every hour is below 24 and the list strictly increases, so no hour repeats |
| OperatingHours.OperatingHoursMembers | src/lib/constants.ts:38-49 | the set of hours shown: h <= 1 or 9..23 in an exam period, 8..23 otherwise |
| RoomCatalogue.TrailingDigitsSound | src/app/page.tsx:119-120 | what the room-number match returns is a "(digits)" group that ends the name |
| RoomCatalogue.TrailingDigitsComplete | src/app/page.tsx:119-120 | any "(digits)" group ending the name is found, and it is the only one |
| RoomCatalogue.Classify | src/app/page.tsx:118-158 | the room keeps the facility's id and name; its number and floor come from the name's trailing group and floor marker |
| RoomCatalogue.ClassifyRoomNumber | src/app/page.tsx:119-120 | the room number is the value of the trailing "(digits)", and 0 when there is none |
| RoomCatalogue.ClassifyFloor | src/app/page.tsx:125 | the floor is 2F, 3F or 4F for the first marker the name contains, in that order, and 1F when it contains none |
| RoomCatalogue.ClassifyTable | src/app/page.tsx:121-146 | the capacity, equipment, kind and name for each floor and number range; all other rooms are 6-person group rooms with Screen and Whiteboard |
| RoomCatalogue.ClassifyKindConsistent | src/app/page.tsx:121-146 | carrels are exactly the one-person rooms and exactly the rooms without equipment; capacities are 1, 5, 6, 8 or 10 |
| RoomCatalogue.DeriveRoomsExclusions | src/app/page.tsx:159-174 | no kept room is on 1F or 4F, on 2F numbered 237-240, or named a 30-person lecture room or Room 310 |
| RoomCatalogue.DeriveRoomsMembers | src/app/page.tsx:117-174 | a room is listed iff some facility classifies to it and it survives the exclusions |
| RoomCatalogue.DeriveRoomsAppend | src/app/page.tsx:117-174 | derivation works facility by facility, so kept rooms stay in facility order |
| RoomCatalogue.FilterRoomsMembers | src/app/page.tsx:480-485 | a room is shown iff it is on the chosen floor (or "All") and, when a capacity is chosen, has exactly that capacity |
| RoomCatalogue.FilterRoomsAppend | src/app/page.tsx:480-485 | the display filter works room by room, so shown rooms keep their order |
| GridReconciler.SynthListPerRecord | src/app/page.tsx:196-245 | a list yields exactly one reservation per record with a defined hour, in record order; records without an hour are dropped |
| GridReconciler.EntryForShape | src/app/page.tsx:199-211 | each entry is of its room, owned by the list's tag, has start pad2(h)+":00" and end pad2(h+1)+":00", and its date with the dashes stripped is the request's date |
| GridReconciler.ListReservations | src/app/page.tsx:196-213 | the `forEach` over one list produces exactly the per-record synthesis |
| GridReconciler.RoomReservations | src/app/page.tsx:182-251 | a room's entries are its `roomOther` entries then its `room` entries; a failed call gives none |
| GridReconciler.CollectReservations | src/app/page.tsx:181-254 | the flattened grid is the concatenation of the rooms' entries in room order |
| GridReconciler.MergeOwn | src/app/page.tsx:275-300 | the overlay loop computes the record-by-record overlay, and throws once a record without hour or date must be appended |
| GridReconciler.MergeStepRelabelsFirstOnly | src/app/page.tsx:277-285 | a matched record relabels exactly the first matching entry (owner and id) and changes nothing else |
| GridReconciler.MergeStepAppends | src/app/page.tsx:285-298 | an unmatched record appends one entry owned by the user, which the record then matches |
| GridReconciler.MergeAllKeepsEntries | src/app/page.tsx:275-300 | no entry is removed or moved; each stays in its slot, unchanged or relabelled to the user; entries no record matches are unchanged; appended entries are the user's; at most one is added per record |
| GridReconciler.MergeAllOwnsEveryRecord | src/app/page.tsx:275-300 | after the overlay, every well-formed own reservation is matched by an entry owned by the user |
| GridReconciler.MergeAllAllMatched | src/app/page.tsx:275-300 | when every own reservation already matches an entry, the overlay only relabels and the length is unchanged |
| GridReconciler.MergeStepDoesNotDeduplicate | src/app/page.tsx:277-284 | two entries of one slot stay two: only the first is relabelled |
| GridReconciler.Reconcile | src/app/page.tsx:181-301 | the grid is the flattened room entries, overlaid with the user's reservations from the probed envelope when logged in |
| GridReconciler.ReconciledHourStartTimes | src/app/page.tsx:196-300 | every start time of a reconciled grid is a padded hour that parseInt reads back |
| JsValues.ProbeFindsFirstArray | src/components/MyReservationsModal.tsx:104-117 | the list is the items of the first envelope shape, in probing order, that holds an array |
| JsValues.ProbeNoArray | src/components/MyReservationsModal.tsx:104-117 | when no shape holds an array the list is empty |
| JsValues.PageAndModalAgree | src/app/page.tsx:264-271 | the page's probing and the dialog's agree unless the envelope has an array under `list` |
| BookingRules.MyDailyReservations | src/app/page.tsx:387-389 | the user's reservations of the day are exactly the grid entries with the user's id and that date |
| BookingRules.OwnBookingAt | src/app/page.tsx:327-329 | the lookup returns a grid entry of this room and user whose start time begins with the clicked time, and finds none iff no entry qualifies |
| BookingRules.SlotClick | src/app/page.tsx:320-397 | a click asks for login iff nobody is logged in; only selecting and deselecting change the selection; a booking offered for cancellation is the user's, in this room; an appended slot was unselected and keeps the day's total within 4 |
| BookingRules.ClickDeselects | src/app/page.tsx:367-370 | a click on a selected slot removes exactly that (room, time) pair and keeps every other slot; with distinct pairs the selection shrinks by one |
| BookingRules.ClickCap | src/app/page.tsx:386-395 | an unselected slot of the selection's room is refused iff booked plus selected hours reach 4, and appended otherwise |
| BookingRules.ClickOtherRoom | src/app/page.tsx:373-384 | a slot of another room is never appended: a non-empty selection is kept and the room-change dialog is offered |
| BookingRules.ClickKeepsSelectionWellFormed | src/app/page.tsx:367-396 | clicks keep the selection within one room and free of duplicate pairs; every slot left selected was selected before or is the clicked cell |
| BookingRules.CancelOnlyFromTen | src/app/page.tsx:327-331 | the cancellation offer finds a booking only for hours >= 10 and then exactly a booking of the user's in that room at that hour |
| BookingRules.FindGap | src/app/page.tsx:423-430 | the gap loop reports a gap iff two consecutive sorted hours differ by exactly 2 |
| BookingRules.SortedHoursCorrect | src/app/page.tsx:421 | the hours sort is an ascending permutation |
| BookingRules.GapMeansFreeHour | src/app/page.tsx:415-430 | the gap rule fires iff some hour h and h+2 are taken and h+1 is not |
| BookingRules.SortedSlotsCorrect | src/app/page.tsx:413 | the slot sort is a permutation in ascending hour order |
| BookingRules.DayHours | src/app/page.tsx:416-421 | the inspected hours number the user's booked hours of the day plus the selected ones |
| BookingRules.RequestFor | src/app/page.tsx:435-442 | a booking request carries the slot's room and hour, the user's id and the date; the remark is the user's organisation name, or "Student" when that is empty, and the admin flag is the user's library flag, or "N" when that is empty |
| BookingRules.BookSequentially | src/app/page.tsx:432-454 | one request per slot in order; the success count is the number of successful responses, and successes plus failures equal the slot count |
| BookingRules.RequestsInHourOrder | src/app/page.tsx:412-442 | the requests cover the selection and go out in ascending hour order |
| BookingPage.MeEntriesNotCounted | src/app/page.tsx:387-389 | entries tagged "me" are not counted by the daily cap or the gap rule |
| BookingPage.Page.VisibleRooms | src/app/page.tsx:480-485 | the grid rows are exactly the page's rooms on the chosen floor (or "All") with the chosen capacity when one is set |
| BookingPage.Page.constructor | src/app/page.tsx:20-49 | the page starts logged out, on the given day, with no rooms, reservations, selection or dialog, and with the filters at "All" and 0 |
| BookingPage.Page.SignIn | src/app/page.tsx:737-741 | a login sets the user and closes the login dialog, leaving the rest unchanged |
| BookingPage.Page.Logout | src/app/page.tsx:472-478 | logging out forgets the user, the grid's reservations and the selection, and keeps the rooms |
| BookingPage.Page.ChangeDate | src/app/page.tsx:613 | changing the day clears the selection |
| BookingPage.Page.SetFilters | src/app/page.tsx:525-565 | setting the filters changes nothing else |
| BookingPage.Page.ApplyFetch | src/app/page.tsx:85-313 | without a token and a user, or without a facility list, nothing changes; otherwise the rooms are replaced and the reservations become the reconciled grid; a throwing overlay keeps the old reservations |
| BookingPage.Page.HandleSlotClick | src/app/page.tsx:320-397 | the new selection and outcome are those of the click rules on the unpadded cell time; the login prompt, cancel dialog or room-change dialog opens as the outcome says; the page invariant is kept |
| BookingPage.Page.ConfirmDialog | src/app/page.tsx:338-381 | confirming a room change makes the clicked slot the whole selection, with no cap check; confirming a cancellation sends one request for the booking and reports whether its reply counts as success |
| BookingPage.Page.DismissDialog | src/app/page.tsx:45 | closing the dialog changes nothing else |
| BookingPage.Page.ConfirmBooking | src/app/page.tsx:399-470 | with no user or no selection nothing happens; the booking is refused, keeping the selection, iff the day's sorted hours have a one-hour gap; otherwise one request per slot goes out in ascending hour order, the counts add up to the slot count, the selection is emptied, and the grid is reloaded only when nothing failed |
| RoomRow.GetSlotStatus | src/components/RoomRow.tsx:32-42 | a cell is available iff no reservation of that room and day has a start time beginning with the padded hour; otherwise the first such reservation decides, my-booking iff its owner is the current user |
| RoomRow.StatusByStartHour | src/components/RoomRow.tsx:32-42 | on a reconciled grid, a cell is taken iff a reservation of that room and day starts at that hour |
| RoomRow.SelectedPairs | src/app/page.tsx:670 | the pairs handed to the row are the selection's (room id, time) pairs, in order |
| RoomRow.SelectedAgrees | src/components/RoomRow.tsx:44-46 | a cell is shown selected iff the page's selection holds that (room, time) pair |
| RoomRow.HourLabel | src/components/RoomRow.tsx:84 | hour 0 is labelled "24", and any other hour by its number |
| RoomRow.RowCells | src/components/RoomRow.tsx:77-88 | one cell per operating hour of the day, in that order, each with its hour label, passing on the unpadded time, showing the slot status, and marked selected iff its (room, time) pair is among the selected pairs |
| RoomRow.RowShape | src/components/RoomRow.tsx:77-84 | in an exam period the row opens with "24" then 1:00, otherwise with 8:00; no hour repeats |
| RoomRow.ClickReachesPageIffEnabled | src/components/RoomRow.tsx:87-88 | a click reaches the page exactly for the cells whose button is enabled, that is, not booked |
| MyReservations.Or | src/components/MyReservationsModal.tsx:135-140 | the logical or of two strings is truthy iff either operand is, and is one of the two |
| MyReservations.Nullish | src/components/MyReservationsModal.tsx:138 | nullish coalescing of two hours is defined iff either operand is, and is one of the two |
| MyReservations.Normalize | src/components/MyReservationsModal.tsx:133-151 | a normalised record always has a non-empty id, room name and status, and carries the normalised room, date and hour |
| MyReservations.NormalizeHour | src/components/MyReservationsModal.tsx:138 | an hour of 0 survives normalisation; a later alias is used only when the earlier ones are missing |
| MyReservations.NormalizeRoomName | src/components/MyReservationsModal.tsx:139 | the facility list's non-empty name wins; with no name anywhere the room is "Room <id>" |
| MyReservations.NormalizeStatus | src/components/MyReservationsModal.tsx:140 | the status defaults to "Unknown" when no alias has a non-empty value |
| MyReservations.NormalizeId | src/components/MyReservationsModal.tsx:135 | a record without a non-empty id under any alias gets a temporary id |
| MyReservations.RoomMapLastWins | src/components/MyReservationsModal.tsx:67-78 | the room map holds exactly the listed rooms, each under the name of its last listing |
| MyReservations.BuildRoomMap | src/components/MyReservationsModal.tsx:67-78 | the facility loop builds that map, and a missing list leaves it empty |
| MyReservations.NormalizedList | src/components/MyReservationsModal.tsx:104-151 | the list is every month's probed records, flattened in order, each normalised |
| MyReservations.SortListCorrect | src/components/MyReservationsModal.tsx:155-160 | the sort is a permutation; of two records with different dates the later comes first; on the same date the earlier hour comes first, a missing hour counting as 0 |
| MyReservations.UpcomingList | src/components/MyReservationsModal.tsx:290-295 | exactly the records whose date string is >= today's are kept |
| MyReservations.DatesInOrderSound | src/components/MyReservationsModal.tsx:296-300 | every group key is some record's date, every dated record's date is a key, and no key occurs twice |
| MyReservations.GroupByDate | src/components/MyReservationsModal.tsx:296-300 | the reduce builds one key per date, in first-occurrence order, mapping each date to its records in list order |
| MyReservations.EntryKeysPermutation | src/components/MyReservationsModal.tsx:290-301 | `Object.entries` lists each group key exactly once |
| MyReservations.EntryKeysAscending | src/components/MyReservationsModal.tsx:290-301 | with array-index keys, the entries come in ascending numeric key order whatever order the keys were added in |
| MyReservations.DateKeyIsArrayIndex | src/components/MyReservationsModal.tsx:293-297 | a yyyyMMdd date is an array-index key |
| MyReservations.DateGroupsSound | src/components/MyReservationsModal.tsx:290-301 | every rendered group is non-empty and holds only records of the list, of today or later, with the group's date |
| MyReservations.DateGroupsComplete | src/components/MyReservationsModal.tsx:290-301 | every record of today or later is shown in its date's group |
| MyReservations.DateGroupsAscending | src/components/MyReservationsModal.tsx:290-301 | with yyyyMMdd dates, the groups are listed in ascending date order |
| MyReservations.GroupHoursAscending | src/components/MyReservationsModal.tsx:155-160 | within a group of the sorted list the hours ascend: each group keeps the sorted order |
| MyReservations.CancellableItems | src/components/MyReservationsModal.tsx:177 | cancel-all acts exactly on the records whose status is not "취소" |
| MyReservations.ShowCancelAllIff | src/components/MyReservationsModal.tsx:307 | the "Cancel All" button shows iff cancel-all has something to cancel |
| MyReservations.RequestFor | src/components/MyReservationsModal.tsx:194-199 | a cancellation request carries the record's room, date, hour and id as they are |
| MyReservations.CancelAll | src/components/MyReservationsModal.tsx:176-225 | with the confirmation accepted: nothing happens iff no record is cancellable; otherwise one request per cancellable record in order; successes are the responses that are truthy with `success` not false; successes plus failures equal the count; the list reloads iff one succeeded |
| MyReservations.FirstMatchFrom | src/components/MyReservationsModal.tsx:55 | the leftmost position at or after p where the pattern matches, or none |
| MyReservations.FormatRoomNameMatch | src/components/MyReservationsModal.tsx:54-56 | at the leftmost match the name is cut there and ends with ", " and the captured digits |
| MyReservations.FormatRoomNameChangesIffMatch | src/components/MyReservationsModal.tsx:54-56 | the name changes iff the pattern matches somewhere; otherwise it is unchanged |
| MyReservations.FormatRoomNameExample | src/components/MyReservationsModal.tsx:54-56 | "2F Group Study, Room A (205)" becomes "2F Group Study, 205" |
| MyReservations.ListGroups | src/components/MyReservationsModal.tsx:290-301 | filtering, the grouping `reduce` and `Object.entries` give exactly the date groups whose soundness, completeness and order are stated above |
| MyReservations.ReservationsView.constructor | src/components/MyReservationsModal.tsx:26-29 | the dialog starts not loading, with no records and the redraw counter at 0 |
| MyReservations.ReservationsView.StartLoad | src/components/MyReservationsModal.tsx:58 | a load begins by showing the spinner, leaving the records and the counter as they are |
| MyReservations.ReservationsView.Load | src/components/MyReservationsModal.tsx:59-166 | a completed load stores the sorted, normalised records of the four months, bumps the redraw counter and hides the spinner |
| MyReservations.ReservationsView.LoadFailed | src/components/MyReservationsModal.tsx:168-171 | a load that throws hides the spinner and keeps the records and the counter |
| MyReservations.ReservationsView.Render | src/components/MyReservationsModal.tsx:283-307 | while loading only the spinner shows; otherwise the rendered groups are the date groups of the stored records for today |

## Left out

- Network calls, `Promise.all` concurrency and the stale-fetch race: each API call is an input value (`CallResult<Payload>`), and the per-room results arrive as one list.
- `localStorage`, the access token and the session restore at src/app/page.tsx:56-83: the token's presence is a boolean input of `BookingPage.Page.ApplyFetch`, and `BookingPage.Page.SignIn` stands for a successful login or restore.
- src/lib/api.ts, LoginModal, BookingModal (always closed), ConfirmModal, DateHeader, the layout and next.config.ts are not part of this model. Neither are toasts, `console` logging, JSX and styling.
- The month windows of the facility and reservation requests (`START_DT`/`END_DT`, date-fns month arithmetic): they only shape the API queries, whose answers are inputs.
- JavaScript `Date` and time zones: a date is a `DateTime` (local calendar day and time of day), and "today" is a parameter.
- The reload after a successful booking or cancellation is reported as a flag (`refetch`); the reload itself is another `BookingPage.Page.ApplyFetch` or `MyReservations.ReservationsView.Load`.
- The single-record cancel of the dialog (src/components/MyReservationsModal.tsx:227-259) is covered by `MyReservations.RequestFor` and `JsValues.CancelSucceeded`; it has no method of its own.
- MyReservations.NormalizeId: `Math.random()` temporary ids are replaced by "temp-<index>", because randomness is not modelled.
- MyReservations.SortListCorrect: `localeCompare` is taken as code-point order, which agrees for the digit strings dates are made of.
- MyReservations.ListLe: a missing date and an empty date compare differently in the source (`!==` on the raw values, then `localeCompare` on `x || ""`); the model compares the `|| ""` forms only.
- MyReservations.RawRecord: only string-valued text keys and number-valued hour keys are modelled. A record giving `RES_HOUR` as a string, and keys named like `Object.prototype` members (such as "constructor") in the grouping object, are not modelled.
- MyReservations.NormalizeRoomName: the room map is a `map` from room id to name, so an id named like an `Object.prototype` member (such as "constructor") finds no inherited value there, whereas `roomMap[ROOM_ID]` at src/components/MyReservationsModal.tsx:139 would read one.
- RoomCatalogue.Facility: `FAC_NM` is always a string. A facility without it makes `.match` throw at src/app/page.tsx:119, which aborts the derivation; that case is not modelled.
- MyReservations.GroupByDate: the dialog's `reduce` and its in-place `sort` are modelled on sequences and maps, not on mutable JavaScript objects and arrays.
- JsText.ParseInt: leading whitespace, `0x` prefixes and numbers beyond 2^53 are not modelled; the front-end only parses the times it builds.
- BookingRules.StartHour and BookingRules.SlotHour read `NaN` as 0. The page invariant (`HourStartTimes`, cell-time selections) rules `NaN` out.
- GridReconciler.HourRecord: `RES_HOUR` is an integer; a string hour, where `+ 1` would concatenate, is not modelled.
- GridReconciler.MergeAllKeepsEntries: bounds the overlay's length by |grid| and |grid| + |own records| instead of counting the unmatched records exactly. `GridReconciler.MergeAllAllMatched` gives the all-matched case exactly.
- MyReservations.CancelAll: models the cancel-all after its confirmation dialog is accepted (src/components/MyReservationsModal.tsx:180-186); a dismissed confirmation sends nothing, and that path is not a member of its own.
- BookingPage.Page.ConfirmBooking and MyReservations.CancelAll take one response per request (`|responses|` equals the number of requests). That is the shape of the input, not a demand of the source.
- BookingPage.Page.ApplyFetch requires one room fetch per derived room, which is how the page issues them.
