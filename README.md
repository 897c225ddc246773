# Room booking store and month calendar, in Dafny

This project models the core of a room-booking web application for a
training organisation. The application books training rooms ("salles") and
collaborators' offices ("bureaux"), records collaborators' leaves, and shows
everything on a month calendar.

- `store.dfy` (module `Store`) models the application's one store, `lib/store.ts`. It holds seven collections:
  - bookings,
  - the selected room and the list of selected rooms,
  - custom training types,
  - rooms, leaves and collaborators.
- Every store operation is a function from a `State` value to the next `State`.
- The class `Store.BookingStore` keeps the seven collections as fields. It has one method per operation, and each method's postcondition ties the new fields to that function.
- The one loop of the store, the expansion of a recurring booking into dated occurrences, is a `while` loop in `BookingStore.AddBooking`. It is proved against the function `WithBooking`, and the lemmas about `WithBooking` state what the expansion does.
- `globalcalendar.dfy` (module `GlobalCalendar`) models the helpers of the month view, `components/global-calendar.tsx`:
  - month length and first weekday,
  - the grid of cells, built by two loops,
  - moving between months,
  - the month and day filters on bookings and leaves,
  - the cell key of a day,
  - the room and collaborator labels.
- `dates.dfy` (module `Dates`) supplies the calendar the program gets from JavaScript's `Date`:
  - ECMA-262 day numbers and weekdays,
  - stepping by a day, a month (`setMonth`, with overflow) and a year (`setFullYear`),
  - the `YYYY-MM-DD` text written by `toISOString().split("T")[0]`, with a strict parser as its inverse.
- `seqs.dfy` (module `Seqs`) and `wrappers.dfy` (module `Wrappers`) hold the array operations the program uses (`filter`, `map`, `find`) and `Option`.

Conventions of the model:
- A date is a valid `Ymd(year, month, day)` value, 1-based month. Entities hold dates, not strings. The text form is `FormatDate`.
- A time of day is a number of minutes since midnight. The program stores `"HH:MM"` strings and compares them as strings; for well-formed times that order is the order of minutes.
- An optional field (`collaboratorId`, `email`, `recurrenceEndDate`, …) is an `Option`.
- A partial update (`Partial<Room>` and the like) gives each key as `Keep` (absent) or `Set(v)` (present). For an optional field, `Set(None)` is a key that is present but `undefined`.
- An absent `excludeBookingId` is `None`. An empty one is `Some("")` and, as in the program, excludes nothing.

## Model

| member | source | states |
|---|---|---|
| Store.SeedWellFormed | lib/store.ts:83-126 | The first-run state's rooms have distinct ids and training rooms carry no collaborator; collaborator ids are distinct; the seven offices are tied, in order, to the seven seed collaborators |
| Store.OverlapIsHalfOpen | lib/store.ts:299-305 | For non-empty intervals the three-pattern overlap test is exactly half-open interval overlap, so back-to-back bookings do not conflict |
| Store.EmptyIntervalStillOverlaps | lib/store.ts:302-304 | An empty new interval at time t (start = end = t) is reported as overlapping exactly the non-empty bookings whose interval holds t, both ends included, though an empty interval overlaps nothing half-open |
| Store.AvailabilityCharacterised | lib/store.ts:289-331 | For well-formed times and a non-empty interval, `isRoomAvailable` is true iff no booking outside the excluded series holds the room on that date with an overlapping interval, and the room is not an office whose referent has a leave covering the date, both ends included |
| Store.LeavesOnlyBlockOffices | lib/store.ts:312-329 | For a training room or an unknown room id, leaves are never consulted: availability is exactly "no conflict", whatever the leaves |
| Store.EmptyExcludeIgnoresNothing | lib/store.ts:295 | An absent or empty exclude id excludes no booking |
| Store.Step | lib/store.ts:173-182 | Each step of the expansion moves the date strictly forward |
| Dates.DayNumberIsMakeDay | components/global-calendar.tsx:17-19 | A calendar day's number is what ECMA-262 MakeDay gives for its year, 0-based month and day, as `new Date(year, month, day)` computes it for years 100 and later |
| Dates.DayFromYearNext | components/global-calendar.tsx:12-14 | Each year adds its own length, 366 in a leap year and 365 otherwise, to the day number of January 1 |
| Dates.AddDays | lib/store.ts:174-177 | `setDate(getDate() + n)` advances the day number by exactly n |
| Dates.AddMonthNumber | lib/store.ts:178-179 | `setMonth(getMonth() + 1)` lands on the day number ECMA-262 MakeDay gives for the same day of the next month, overflowing into the month after (Jan 31 → Mar 2 or 3) |
| Dates.AddYearNumber | lib/store.ts:180-181 | `setFullYear(getFullYear() + 1)` lands on MakeDay of the same month and day a year later (Feb 29 → Mar 1) |
| Dates.BeforeIffEarlierDayNumber | lib/store.ts:138 | The loop's date comparison: one calendar day is before another iff its day number is smaller |
| Dates.DaysInMonth | components/global-calendar.tsx:12-14 | Month lengths lie between 28 and 31, and are 29 exactly for February of a leap year |
| Dates.ParseFormattedDate | lib/store.ts:133-139 | Reading back the `YYYY-MM-DD` text of a date with a year in 0..9999 gives the same date |
| Dates.FormatParsedDate | lib/store.ts:133-139 | A string the strict parser accepts is exactly the text of the date it yields |
| Dates.FormatDateInjective | lib/store.ts:145 | Distinct dates with years in 0..9999 have distinct texts, so comparing date strings compares dates |
| Store.OccurrencesStepped | lib/store.ts:137-183 | The candidate dates start at the booking's date, each is one step after the previous one, all lie in [date, end], the step after the last passes the end, and there are none iff the start is after the end |
| Store.OccurrencesIncrease | lib/store.ts:137-183 | The candidate dates strictly increase |
| Store.ExpansionMembers | lib/store.ts:141-171 | Each appended booking is the occurrence of a candidate date that is not skipped, and each candidate date that is not skipped has its occurrence appended |
| Store.ExpansionExactly | lib/store.ts:141-171 | A candidate date's occurrence is appended iff the date is not skipped |
| Store.ExpansionIncreases | lib/store.ts:137-183 | Occurrences are appended in increasing date order |
| Store.ExpansionAdvances | lib/store.ts:138-182 | One turn of the loop settles the current date and leaves the later dates to expand |
| Store.RecurringAddBooking | lib/store.ts:131-185 | Recurring `addBooking` keeps the old bookings as an unchanged prefix. It appends, in increasing date order, the occurrence (id `id-YYYY-MM-DD`, other fields copied) of each stepped date up to the end date exactly when the date conflicts with no booking held before the call and is in no leave of the office. A start after the end appends nothing, and nothing else in the state changes |
| Store.SingleAddBooking | lib/store.ts:188-189 | A non-recurring booking, or one without an end date, is appended as given, unchecked, and nothing else changes |
| Store.BookingStore.AddBooking | lib/store.ts:128-191 | The loop computes exactly `WithBooking` of the old state |
| Store.RemoveBookingKeeps | lib/store.ts:193-196 | `removeBooking(id)` keeps exactly the bookings whose id is neither `id` nor starts with `id + "-"`, in their order, and changes nothing else |
| Store.RemoveBookingIdempotent | lib/store.ts:193-196 | A second `removeBooking` of the same id removes nothing more |
| Store.RemoveBookingSparesLongerIds | lib/store.ts:195 | Removing "1" removes "1" and "1-2024-01-08" but spares "12" |
| Store.AddedBookingsInSeries | lib/store.ts:166-170 | Every booking `addBooking` appends has the booking's id or an id starting with that id and "-" |
| Store.RemoveSeriesUndoesAdd | lib/store.ts:128-196 | Removing a booking's id after `addBooking` gives the same bookings as removing it before, for a single booking and for a whole series |
| Store.ExcludingSeriesIgnoresIt | lib/store.ts:166-170 | Availability checked while excluding a series' id is the same before and after `addBooking` added that series |
| Store.BookingStore.RemoveBooking | lib/store.ts:193-196 | The new state is `WithoutBooking` of the old one |
| Store.BookingStore.SetSelectedRoom | lib/store.ts:198 | Only the selected room changes, to the given id |
| Store.BookingStore.SetSelectedRooms | lib/store.ts:200 | Only the selected-room list changes, to the given list |
| Store.ToggleFlips | lib/store.ts:202-213 | Toggling flips whether the room is selected and leaves every other room's selection as it was |
| Store.ToggleTwiceRestores | lib/store.ts:202-213 | Toggling an unselected room twice restores the list |
| Store.BookingStore.ToggleSelectedRoom | lib/store.ts:202-213 | Only the selected-room list changes, to `Toggled` of the old list |
| Store.RemoveTrainingTypeUndoesAdd | lib/store.ts:215-223 | Removing a training type with a fresh id right after adding it restores the state |
| Store.BookingStore.AddTrainingType | lib/store.ts:215-218 | The type is appended and nothing else changes |
| Store.BookingStore.RemoveTrainingType | lib/store.ts:220-223 | The types with that id are filtered out and nothing else changes |
| Store.RemoveRoomCascades | lib/store.ts:235-246 | `removeRoom` removes exactly the rooms with that id, the bookings of that room, the leaves of that referent and the id from the selection; collaborators and training types stay |
| Store.RemoveRoomSelection | lib/store.ts:239-240 | The selected room changes only if it was the removed one. It then becomes the first room of the old list whose id differs from the removed one, or "salle1" when that room's id is empty or there is no such room |
| Store.RemoveRoomIdempotent | lib/store.ts:235-246 | A second `removeRoom` of the same id changes nothing |
| Store.RemoveRoomKeepsWellFormed | lib/store.ts:237 | Removing a room keeps room ids distinct and training rooms free of collaborators |
| Store.BookingStore.RemoveRoom | lib/store.ts:235-246 | The new state is `WithoutRoom` of the old one |
| Store.BookingStore.AddRoom | lib/store.ts:225-228 | The room is appended and nothing else changes |
| Store.UpdateRoomTouchesOnlyMatches | lib/store.ts:230-233 | `updateRoom` keeps the rooms' number and order, spreads the update over exactly the rooms with that id, changes nothing else, and is a no-op for an unknown id |
| Store.RoomFormKeepsWellFormed | lib/store.ts:225-233 | Additions with a fresh id and updates of the kind the room form sends (training rooms without a collaborator, id untouched) keep the room invariant |
| Store.BookingStore.UpdateRoom | lib/store.ts:230-233 | The new state is `WithRoomUpdated` of the old one |
| Store.BookingStore.AddLeave | lib/store.ts:248-251 | The leave is appended and nothing else changes |
| Store.UpdateLeaveTouchesOnlyMatches | lib/store.ts:253-256 | `updateLeave` alters only the leaves with that id, keeps their number and order, and is a no-op for an unknown id |
| Store.BookingStore.UpdateLeave | lib/store.ts:253-256 | The new state is `WithLeaveUpdated` of the old one |
| Store.RemoveLeaveUndoesAdd | lib/store.ts:248-261 | Removing a leave with a fresh id right after adding it restores the state |
| Store.BookingStore.RemoveLeave | lib/store.ts:258-261 | The new state is `WithoutLeave` of the old one |
| Store.AddedLeaveBlocksOffice | lib/store.ts:312-329 | After a leave is added for an office, the office is unavailable on every day the leave covers |
| Store.BookingStore.AddCollaborator | lib/store.ts:263-266 | The collaborator is appended and nothing else changes |
| Store.UpdateCollaboratorTouchesOnlyMatches | lib/store.ts:268-271 | `updateCollaborator` alters only the collaborators with that id, keeps their number and order, and is a no-op for an unknown id |
| Store.BookingStore.UpdateCollaborator | lib/store.ts:268-271 | The new state is `WithCollaboratorUpdated` of the old one |
| Store.RemoveCollaboratorDetaches | lib/store.ts:273-287 | `removeCollaborator` removes exactly that collaborator. It keeps every room, in order, with every field, except that exactly the rooms tied to it have `collaboratorId` cleared to `undefined`; nothing else in the state changes |
| Store.RemoveCollaboratorUndoesAdd | lib/store.ts:263-287 | Removing a fresh collaborator right after adding it, before any office is tied to it, restores the state |
| Store.RemoveCollaboratorKeepsWellFormed | lib/store.ts:279-281 | Removing a collaborator keeps the room invariant |
| Store.BookingStore.RemoveCollaborator | lib/store.ts:273-287 | The new state is `WithoutCollaborator` of the old one |
| Store.BookingStore.IsRoomAvailable | lib/store.ts:289-331 | On the current state, for well-formed times and a non-empty interval, the room is available iff no booking outside the excluded series holds it that day with an overlapping interval, and it is not an office whose referent has a leave covering the date |
| Store.BookingStore.constructor | lib/store.ts:119-126 | A first run starts from the seed state |
| GlobalCalendar.GetDaysInMonth | components/global-calendar.tsx:12-14 | The month length is 29 or 28 for February as the year is leap or not, 30 for April, June, September and November, and 31 otherwise |
| GlobalCalendar.GetDaysInMonthIsLastDay | components/global-calendar.tsx:12-14 | For years 100 and later, `new Date(year, month + 1, 0)` is that month's last day: its day number is MakeDay's for day 0 of the next month |
| GlobalCalendar.GetFirstDayOfMonth | components/global-calendar.tsx:17-21 | The first weekday is an index into the weekday headers, 0 for "Dim" |
| GlobalCalendar.GridColumnIsWeekday | components/global-calendar.tsx:17-21 | Day k of the month, in cell first + k - 1 of the grid, sits in the column of its own weekday |
| GlobalCalendar.NextMonthStartsAfter | components/global-calendar.tsx:12-19 | Day 1 of the next month comes the month's length in days after day 1 of this month |
| GlobalCalendar.NextFirstDay | components/global-calendar.tsx:12-19 | The next month's first weekday is this month's first weekday plus its length, modulo 7 |
| GlobalCalendar.FirstDayOf2024 | components/global-calendar.tsx:17-21 | January 2024 starts under "Lun" |
| GlobalCalendar.PrevMonthNumber | components/global-calendar.tsx:71-73 | `prevMonth` goes to day 1 of the month before, wrapping January to December of the previous year, which is `new Date(year, month - 1, 1)` for years 100 and later |
| GlobalCalendar.NextMonthNumber | components/global-calendar.tsx:75-77 | `nextMonth` goes to day 1 of the month after, wrapping December to January of the next year, which is `new Date(year, month + 1, 1)` for years 100 and later |
| GlobalCalendar.PrevNextInverse | components/global-calendar.tsx:71-77 | `prevMonth` then `nextMonth`, or the reverse, returns to day 1 of the month shown |
| GlobalCalendar.CalendarDays | components/global-calendar.tsx:105-116 | The grid has firstDayOfMonth + daysInMonth cells: firstDayOfMonth empty ones, then the days 1 to daysInMonth in order |
| GlobalCalendar.FilteredBookingsInMonth | components/global-calendar.tsx:79-85 | The month's bookings are exactly the store's bookings dated in that year and month, in store order |
| GlobalCalendar.ShownInMonthIffMeets | components/global-calendar.tsx:87-103 | For a leave that does not end before it starts, the month filter keeps it iff its days meet the month; the start-month and end-month tests add nothing |
| GlobalCalendar.InvertedLeaveShown | components/global-calendar.tsx:87-157 | Every leave of the store whose end precedes its start is listed in the month it starts in, yet no day's cell of that month shows it |
| GlobalCalendar.LeavesForDayCover | components/global-calendar.tsx:147-157 | A day's cell lists exactly the store's leaves whose start is on or before the day and whose end is on or after it |
| GlobalCalendar.DateKeyIsIsoDate | components/global-calendar.tsx:215 | For four-digit years the cell key is the zero-padded `YYYY-MM-DD` text of that day |
| GlobalCalendar.DateKeyUnpaddedYear | components/global-calendar.tsx:215-216 | For every day of a year 0..999 the key, whose year is unpadded, is shorter than ten characters, so it matches no stored date text and the day's cell shows no booking |
| GlobalCalendar.CellBookingsAreTheDays | components/global-calendar.tsx:215-216 | For a four-digit year, a day's cell lists exactly the store's bookings dated that day |
| GlobalCalendar.GetRoomName | components/global-calendar.tsx:118-123 | The name of the first room with that id, or the id itself when there is none |
| GlobalCalendar.GetCollaboratorName | components/global-calendar.tsx:125-134 | "" for an unknown room, a room without a collaborator id or with an empty one, or an unknown collaborator; otherwise the name of the first collaborator with that id |
| GlobalCalendar.GetRoomColor | components/global-calendar.tsx:136-145 | Blue exactly when the first room with that id is a training room; green otherwise, unknown rooms included |

## Left out

- Persistence: the `zustand` store creation and its `localStorage` copy (`persist`, key "booking-storage") are a foreign library whose serialisation is not visible. The store is a plain class starting from the seed state.
- Time zones: the program parses `YYYY-MM-DD` as UTC midnight but steps dates with local setters, and the calendar compares against dates built in local time. Outside UTC this can move dates, and monthly and yearly series drift: at UTC−5 a monthly series from 2024-03-01 runs 2024-03-01, 2024-03-30, 2024-04-30 in the program, where the model gives 2024-04-01 and 2024-05-01. Dates here are time-zone-free calendar days.
- Store.BookingStore.AddBooking: strings that `new Date` cannot parse (an Invalid Date never enters the loop) are not modelled. Dates are valid calendar days throughout.
- Store.BookingStore.AddBooking: requires a recurrence pattern whenever a recurring booking's start is on or before its end date. Without one the program's loop never advances and never ends, so the model leaves that case out.
- GlobalCalendar.GetDaysInMonth, GlobalCalendar.GetFirstDayOfMonth, GlobalCalendar.PrevMonth, GlobalCalendar.NextMonth, GlobalCalendar.MonthStart, GlobalCalendar.MonthEnd and GlobalCalendar.RoomLeavesForDay: the `Date` constructor reads a year 0..99 as 1900 + year. The model treats every year as given, so for years 0..99 it does not follow the program: `getDaysInMonth(0, 1)` is 28 there and 29 here, and `nextMonth` from December of year 99 goes to January 2000 there and January of year 100 here. Such years are reached only by paging back about nineteen centuries.
- Store.Occurrence: an occurrence's id and date text use the ISO form, which for years outside 0..9999 is the six-digit signed form. Those dates are not distinguished from four-digit ones in the round-trip lemmas, which need a year in 0..9999.
- Store.RoomAvailable: times are minutes, not `"HH:MM"` strings. A malformed time string, which the program would compare character by character, is not modelled.
- Store.PatchRoom: a present key whose value is `undefined` on a required field (a `name` set to `undefined`) is not modelled. Only optional fields may be cleared.
- Ids built from `Date.now()` by the room and collaborator forms are inputs here. The forms themselves (React dialogs) are not modelled, beyond their rules on rooms, which `RoomFormKeepsWellFormed` takes as preconditions.
- React state, effects, the store subscription and the JSX of the calendar are not modelled. That includes the server-render branch where `isClient` is false: there the lists are empty and the labels fall back to the id, "" and blue. The helpers are modelled as functions of a snapshot of the store.
- The month names and the header text that uses them are display only and are not modelled.
- Routing, middleware, configuration and static pages hold no domain logic and are not part of this model.
