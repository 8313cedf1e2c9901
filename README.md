# famconnect family calendar — a Dafny model

This project models the core of famconnect, an Android family calendar.
Family members sign up and either create a family (a name and a PIN) or join
one (its id and PIN). They share events that are stored per family in a
document store. The app shows the events in a month grid with multi-day bars,
and each day shows up to three rows and a "+N" overflow badge.

The model covers these parts:

- **Month grid**: the grid of weeks starting on Monday, split into weeks.
- **Week layout**: the first-fit row packing of a week's events and the
  per-day overflow count.
- **Simpler calendar**: the day filter, the two-item preview and month
  navigation.
- **Participants column**: the codec that stores the participant list as one
  comma-separated column.
- **Repositories**: the event, user and family repositories.
- **View models**: the event and user view models.
- **Event dialog**: date clamping, the Save rule, all-day times and time
  formatting.
- **Screens**: the validation chains of the registration and family-choice
  screens.

Modelling conventions:

- **Dates** are epoch days. Day 0 is 1970-01-01, a Thursday.
- **Time zones**: converting an instant to a local date in the device's time
  zone is the parameter `dayOf`. Converting a local date and time to an
  instant is the parameter `atZone`.
- **Remote calls** take a `Link` argument. `Up` means the call succeeds.
  `Down(message)` means it fails with that exception message.
- **New document ids** and generated row keys are parameters. They must be
  fresh.
- **Stateful objects**: a repository or view model whose fields the code
  updates is a class. Each of its methods states the new value of every field it may change.
- **Pure logic** is a set of functions with lemmas.

## Model

| member | source | states |
|---|---|---|
| CalendarView.DayOfWeek | app/src/main/java/com/dsolutions/famconnect/view/calendar/CalendarView.kt:122 | ISO day of week of an epoch day, always 1..7 |
| CalendarView.LeadingDays | app/src/main/java/com/dsolutions/famconnect/view/calendar/CalendarView.kt:122-125 | the number of leading days `(dayOfWeek+6)%7` is in 0..6, and the grid's first cell falls on a Monday |
| CalendarView.RoundUpToWeek | app/src/main/java/com/dsolutions/famconnect/view/calendar/CalendarView.kt:129-131 | padding stops at the first multiple of 7 that is at least the length, which is less than 7 beyond it |
| CalendarView.MonthGrid | app/src/main/java/com/dsolutions/famconnect/view/calendar/CalendarView.kt:119-133 | the grid is a run of consecutive days from `first - leading`, whose length is leading+length rounded up to a multiple of 7 |
| CalendarView.BuildMonthGrid | app/src/main/java/com/dsolutions/famconnect/view/calendar/CalendarView.kt:119-133 | the three loops (leading days, month days, padding) build exactly `MonthGrid` |
| CalendarView.GridIsMondayAligned | app/src/main/java/com/dsolutions/famconnect/view/calendar/CalendarView.kt:122-128 | the grid's length is a multiple of 7 and its first day is a Monday; day 1 sits right after the leading days, all of which precede it |
| CalendarView.GridHoldsEachDayOnce | app/src/main/java/com/dsolutions/famconnect/view/calendar/CalendarView.kt:126-128 | day n of the month sits at index leading+n-1 and at no other index |
| CalendarView.Chunked | app/src/main/java/com/dsolutions/famconnect/view/calendar/CalendarView.kt:135 | `chunked(7)` of a grid yields \|days\|/7 weeks, the w-th being days[7w..7w+7] |
| CalendarView.MonthWeeks | app/src/main/java/com/dsolutions/famconnect/view/calendar/CalendarView.kt:119-135 | a month of 28..31 days gives 4 to 6 weeks, each seven consecutive days starting on Monday |
| CalendarView.WeekEvents | app/src/main/java/com/dsolutions/famconnect/view/calendar/CalendarView.kt:196-201 | an event is laid out in a week iff it starts no later than the week's last day and ends no earlier than its first; the kept events are a subsequence of the list, each as often as in the list |
| CalendarView.IndexOf | app/src/main/java/com/dsolutions/famconnect/view/calendar/CalendarView.kt:211-212 | `indexOf` gives the first position of the value, or -1 when it is absent |
| CalendarView.CellsOf | app/src/main/java/com/dsolutions/famconnect/view/calendar/CalendarView.kt:208-212 | the clamped start and end columns are always within 0..6, using the `takeIf` defaults 0 and 6 |
| CalendarView.AllCells | app/src/main/java/com/dsolutions/famconnect/view/calendar/CalendarView.kt:204-212 | one column range per laid-out event, in order |
| CalendarView.CellsOfTouchingEvent | app/src/main/java/com/dsolutions/famconnect/view/calendar/CalendarView.kt:208-212 | for an event with start <= end that touches the week, 0 <= startIndex <= endIndex <= 6, and it covers column d iff its span contains that day |
| CalendarView.IndexOfInWeek | app/src/main/java/com/dsolutions/famconnect/view/calendar/CalendarView.kt:211-212 | a day inside the week is found at its offset from the week's first day |
| CalendarView.CoverCount | app/src/main/java/com/dsolutions/famconnect/view/calendar/CalendarView.kt:221-224 | the number of events covering a column is at most the number of events |
| CalendarView.PlaceWeekEvents | app/src/main/java/com/dsolutions/famconnect/view/calendar/CalendarView.kt:193-224 | every event gets the lowest row below 3 free on all its columns, or row 3 when none is; each `usedSlotCount[d]` equals the number of events covering column d |
| CalendarView.FindSlot | app/src/main/java/com/dsolutions/famconnect/view/calendar/CalendarView.kt:214-219 | the search loop stops at the lowest row below 3 that is free on columns startIndex..endIndex, or at 3 when all are busy |
| CalendarView.MarkRow | app/src/main/java/com/dsolutions/famconnect/view/calendar/CalendarView.kt:221-224 | columns startIndex..endIndex of the chosen row become occupied and their counts rise by one; no other cell or count changes |
| CalendarView.CoverCountSnoc | app/src/main/java/com/dsolutions/famconnect/view/calendar/CalendarView.kt:223 | one more event raises the count of exactly the columns it covers |
| CalendarView.PlacementIsFirstFit | app/src/main/java/com/dsolutions/famconnect/view/calendar/CalendarView.kt:214-219 | the `while` loop's exit row is the first-fit row for the event being placed |
| CalendarView.TakenAfterPlacing | app/src/main/java/com/dsolutions/famconnect/view/calendar/CalendarView.kt:221-224 | after placing, a cell is occupied iff it was before or the new event covers it in its row |
| CalendarView.FirstFitKept | app/src/main/java/com/dsolutions/famconnect/view/calendar/CalendarView.kt:204-224 | placing a later event does not change that earlier events were placed first-fit |
| CalendarView.SameVisibleRowDisjoint | app/src/main/java/com/dsolutions/famconnect/view/calendar/CalendarView.kt:214-224 | two events drawn in the same visible row of a week share no day |
| CalendarView.OverflowBadge | app/src/main/java/com/dsolutions/famconnect/view/calendar/CalendarView.kt:266-269 | the badge appears iff more than 3 events cover the day, and then shows that count minus 3, at least 1 |
| CalendarView.RowCount | app/src/main/java/com/dsolutions/famconnect/view/calendar/CalendarView.kt:214-224 | the number of events in one row on a day is at most the number of events |
| CalendarView.VisibleCount | app/src/main/java/com/dsolutions/famconnect/view/calendar/CalendarView.kt:226 | the number of events drawn on a day is at most the number of events |
| CalendarView.HiddenCount | app/src/main/java/com/dsolutions/famconnect/view/calendar/CalendarView.kt:221-226 | the number of events in the overflow row on a day is at most the number of events |
| CalendarView.VisiblePlusHidden | app/src/main/java/com/dsolutions/famconnect/view/calendar/CalendarView.kt:221-226 | on each day, drawn events plus overflow-row events equal the events covering it |
| CalendarView.RowHoldsAtMostOne | app/src/main/java/com/dsolutions/famconnect/view/calendar/CalendarView.kt:214-224 | first-fit puts at most one event per visible row on a day |
| CalendarView.NoneTakenMeansZero | app/src/main/java/com/dsolutions/famconnect/view/calendar/CalendarView.kt:214-224 | a free cell has no event in it |
| CalendarView.VisibleIsRowSum | app/src/main/java/com/dsolutions/famconnect/view/calendar/CalendarView.kt:214-226 | the drawn events of a day are the sum over the three visible rows |
| CalendarView.AtMostThreeVisible | app/src/main/java/com/dsolutions/famconnect/view/calendar/CalendarView.kt:214-226 | at most 3 events are drawn on any day |
| CalendarView.BadgeNeverOverstates | app/src/main/java/com/dsolutions/famconnect/view/calendar/CalendarView.kt:266-269 | when the badge shows, its number is at most the events actually hidden that day |
| CalendarView.ExampleCells | app/src/main/java/com/dsolutions/famconnect/view/calendar/CalendarView.kt:208-212 | in the example week the four events occupy Monday three times and Monday–Tuesday once |
| CalendarView.ExampleSlots | app/src/main/java/com/dsolutions/famconnect/view/calendar/CalendarView.kt:214-219 | first-fit puts the example's events in rows 0, 1, 2 and 3 |
| CalendarView.ExampleCounts | app/src/main/java/com/dsolutions/famconnect/view/calendar/CalendarView.kt:221-226 | in the example, one event is hidden on Tuesday while only one event covers Tuesday |
| CalendarView.BadgeMissesHiddenEvent | app/src/main/java/com/dsolutions/famconnect/view/calendar/CalendarView.kt:266-269 | as written: the Monday–Tuesday event is hidden on Tuesday and Tuesday shows no badge |
| CalendarView.HiddenBadge | app/src/main/java/com/dsolutions/famconnect/view/calendar/CalendarView.kt:266-269 | corrected badge: the number of events in the overflow row that day, shown when at least 1 |
| CalendarView.HiddenBadgeAccountsForEveryEvent | app/src/main/java/com/dsolutions/famconnect/view/calendar/CalendarView.kt:266-269 | with the corrected badge, drawn events plus the badge equal the events covering the day |
| CalendarViewCopy.PlusMonths | app/src/main/java/com/dsolutions/famconnect/view/calendar/CalendarViewCopy.kt:87 | `plusMonths(n)` gives a valid year-month n months later |
| CalendarViewCopy.MinusMonths | app/src/main/java/com/dsolutions/famconnect/view/calendar/CalendarViewCopy.kt:78 | `minusMonths(n)` gives a valid year-month n months earlier |
| CalendarViewCopy.MonthCountInjective | app/src/main/java/com/dsolutions/famconnect/view/calendar/CalendarViewCopy.kt:78-87 | two valid year-months with the same month count are equal |
| CalendarViewCopy.PreviousAndNextCancel | app/src/main/java/com/dsolutions/famconnect/view/calendar/CalendarViewCopy.kt:78-87 | the previous and next arrows undo each other |
| CalendarViewCopy.NextPageIsNextMonth | app/src/main/java/com/dsolutions/famconnect/view/calendar/CalendarView.kt:100 | the pager's page p+1 shows the month after page p |
| CalendarViewCopy.LengthOfMonth | app/src/main/java/com/dsolutions/famconnect/view/calendar/CalendarViewCopy.kt:62 | a month has 28..31 days; 29 iff it is February of a leap year; 31 iff it is one of the seven long months |
| CalendarViewCopy.DisplayedMonthWeeks | app/src/main/java/com/dsolutions/famconnect/view/calendar/CalendarViewCopy.kt:55-70 | any displayed month gives 4 to 6 Monday-first weeks |
| CalendarViewCopy.EventsForDate | app/src/main/java/com/dsolutions/famconnect/view/calendar/CalendarViewCopy.kt:121-124 | the events listed on a date are exactly those whose start and end days enclose it, in their order and each as often as in the list |
| CalendarViewCopy.DayCellOf | app/src/main/java/com/dsolutions/famconnect/view/calendar/CalendarViewCopy.kt:157-159 | the preview is the first min(2, n) events and the remaining count makes up the rest |
| CalendarViewCopy.RemainingLabel | app/src/main/java/com/dsolutions/famconnect/view/calendar/CalendarViewCopy.kt:186-189 | the "+ N" label appears iff the remaining count is positive, and N is that count in decimal |
| CalendarViewCopy.LabelIffMoreThanTwo | app/src/main/java/com/dsolutions/famconnect/view/calendar/CalendarViewCopy.kt:157-189 | a day shows the "+ N" label iff more than two events run on it, with N = count - 2 written in decimal |
| Converters.Join | app/src/main/java/com/dsolutions/famconnect/data/converters/Converters.kt:11 | no elements join to the empty text and one element joins to itself |
| Converters.JoinEnds | app/src/main/java/com/dsolutions/famconnect/data/converters/Converters.kt:11 | the joined text starts with the first element and ends with the last |
| Converters.JoinCons | app/src/main/java/com/dsolutions/famconnect/data/converters/Converters.kt:11 | an element in front of a non-empty list is followed by a comma and the join of the rest |
| Converters.JoinFront | app/src/main/java/com/dsolutions/famconnect/data/converters/Converters.kt:11 | a character glued to the first of two or more pieces ends up at the front of their join |
| Converters.Split | app/src/main/java/com/dsolutions/famconnect/data/converters/Converters.kt:14 | splitting yields at least one piece and no piece contains a comma |
| Converters.NonBlank | app/src/main/java/com/dsolutions/famconnect/data/converters/Converters.kt:14 | the kept pieces are exactly the non-blank pieces, in their order, each as often as in the input |
| Converters.ToStringList | app/src/main/java/com/dsolutions/famconnect/data/converters/Converters.kt:14 | every element read back is non-blank and comma-free |
| Converters.ToStringListOfEmpty | app/src/main/java/com/dsolutions/famconnect/data/converters/Converters.kt:14 | the empty column reads back as the empty list |
| Converters.SplitWithoutComma | app/src/main/java/com/dsolutions/famconnect/data/converters/Converters.kt:14 | a comma-free text splits into itself |
| Converters.SplitAtFirstComma | app/src/main/java/com/dsolutions/famconnect/data/converters/Converters.kt:14 | splitting peels off the piece before the first comma |
| Converters.SplitOfJoin | app/src/main/java/com/dsolutions/famconnect/data/converters/Converters.kt:11-14 | split undoes join for comma-free pieces |
| Converters.JoinOfSplit | app/src/main/java/com/dsolutions/famconnect/data/converters/Converters.kt:11-14 | join undoes split on any text |
| Converters.NonBlankKeepsNonBlank | app/src/main/java/com/dsolutions/famconnect/data/converters/Converters.kt:14 | the blank filter keeps a list without blanks unchanged |
| Converters.RoundTrip | app/src/main/java/com/dsolutions/famconnect/data/converters/Converters.kt:11-14 | a list of non-blank, comma-free elements survives being stored and read back |
| Converters.Idempotent | app/src/main/java/com/dsolutions/famconnect/data/converters/Converters.kt:11-14 | storing and reading back a list that was read back changes nothing |
| Strings.NatToStringOneDigit | app/src/main/java/com/dsolutions/famconnect/view/calendar/EventDialog.kt:464 | a one-digit number prints as its digit |
| Strings.NatToStringTwoDigits | app/src/main/java/com/dsolutions/famconnect/view/calendar/EventDialog.kt:464 | a two-digit number prints as its two digits |
| EventDialogModule.UtcDay | app/src/main/java/com/dsolutions/famconnect/view/calendar/EventDialog.kt:97 | the picker's millisecond selection falls within the returned UTC day |
| EventDialogModule.TwoDigitText | app/src/main/java/com/dsolutions/famconnect/view/calendar/EventDialog.kt:464-465 | `toString().padStart(2, '0')` of 0..99 is its tens and units digits |
| EventDialogModule.FormatTimeShape | app/src/main/java/com/dsolutions/famconnect/view/calendar/EventDialog.kt:463-467 | the time shows as exactly five characters, hh:mm |
| EventDialogModule.GlueTime | app/src/main/java/com/dsolutions/famconnect/view/calendar/EventDialog.kt:466 | two two-character parts around ':' make the five characters hh:mm |
| EventDialogModule.CombineDateAndTime | app/src/main/java/com/dsolutions/famconnect/view/calendar/EventDialog.kt:469-474 | no date gives 0; otherwise the zone's instant for that date and time |
| EventDialogModule.ParticipantsAsWritten | app/src/main/java/com/dsolutions/famconnect/view/calendar/EventDialog.kt:445 | as written, Save stores the participants field as a single entry |
| EventDialogModule.ParticipantsCollapse | app/src/main/java/com/dsolutions/famconnect/view/calendar/EventDialog.kt:134 | as written, ["Anna","Ben"] prefilled and saved unchanged becomes ["Anna,Ben"] |
| EventDialogModule.ParticipantsFromField | app/src/main/java/com/dsolutions/famconnect/view/calendar/EventDialog.kt:445 | corrected rule: the field is read with the column codec, so every entry is non-blank and comma-free |
| EventDialogModule.ParticipantsSurvive | app/src/main/java/com/dsolutions/famconnect/view/calendar/EventDialog.kt:134 | with the corrected rule, storable participants survive an unchanged edit |
| EventDialogModule.EventDialog.constructor | app/src/main/java/com/dsolutions/famconnect/view/calendar/EventDialog.kt:46-91 | the dialog starts with empty fields, closed pickers and the given initial dates and times |
| EventDialogModule.EventDialog.Prefill | app/src/main/java/com/dsolutions/famconnect/view/calendar/EventDialog.kt:131-139 | an edited event's fields fill the form, with participants joined by commas |
| EventDialogModule.EventDialog.PickStartDate | app/src/main/java/com/dsolutions/famconnect/view/calendar/EventDialog.kt:95-107 | the new start is the picked UTC day; an end before it moves up to it, so start <= end; a cleared selection keeps both dates; the start picker closes; the times, the text fields, the all-day box, the flag and the end picker are unchanged |
| EventDialogModule.EventDialog.PickEndDate | app/src/main/java/com/dsolutions/famconnect/view/calendar/EventDialog.kt:109-121 | the new end is the picked UTC day; a start after it moves back to it, so start <= end; a cleared selection keeps both dates; the end picker closes; the times, the text fields, the all-day box, the flag and the start picker are unchanged |
| EventDialogModule.EventDialog.PickTime | app/src/main/java/com/dsolutions/famconnect/view/calendar/EventDialog.kt:123-129 | a time picker's change sets only its own time; every other field of the dialog is unchanged |
| EventDialogModule.EventDialog.Save | app/src/main/java/com/dsolutions/famconnect/view/calendar/EventDialog.kt:426-453 | a blank title only raises the flag; otherwise one event is passed to onSave and then onDismiss, built from the fields, with 00:00 and 23:59 for all-day events and the flag untouched; no field but the flag ever changes |
| EventRepositoryModule.Decoded | app/src/main/java/com/dsolutions/famconnect/data/repository/wrapper/EventRepository.kt:46 | the snapshot keeps exactly the documents that decode to an event |
| EventRepositoryModule.EventRepository.Events | app/src/main/java/com/dsolutions/famconnect/data/repository/wrapper/EventRepository.kt:18-22 | `families/{id}/events`, empty for a family with no events |
| EventRepositoryModule.EventRepository.AddEvent | app/src/main/java/com/dsolutions/famconnect/data/repository/wrapper/EventRepository.kt:24-34 | a blank familyId throws and stores nothing; otherwise the event, with its id set to the new document id, is stored under that id, or the write fails and nothing changes; other families are untouched |
| EventRepositoryModule.EventRepository.UpdateEvent | app/src/main/java/com/dsolutions/famconnect/data/repository/wrapper/EventRepository.kt:55-60 | the event replaces the document with its id, or nothing changes on failure; other families are untouched |
| EventRepositoryModule.EventRepository.DeleteEvent | app/src/main/java/com/dsolutions/famconnect/data/repository/wrapper/EventRepository.kt:62-66 | the document with the event's id is removed; deleting an absent id changes nothing |
| EventRepositoryModule.EventRepository.Snapshot | app/src/main/java/com/dsolutions/famconnect/data/repository/wrapper/EventRepository.kt:36-53 | a snapshot lists each decodable event of the family exactly once, and on failure the listener ends with the error |
| EventViewModelModule.EventsStartingOn | app/src/main/java/com/dsolutions/famconnect/viewmodel/EventViewModel.kt:72-76 | the events of a date are exactly those whose start falls on it, in order, each as often as in the list |
| EventViewModelModule.WithoutId | app/src/main/java/com/dsolutions/famconnect/viewmodel/EventViewModel.kt:117-132 | removing by id keeps exactly the events with other ids, in order, each as often as in the list |
| EventViewModelModule.WithoutIdShrinks | app/src/main/java/com/dsolutions/famconnect/viewmodel/EventViewModel.kt:117-132 | the list gets no longer, and keeps its length iff no event had the id |
| EventViewModelModule.BackFill | app/src/main/java/com/dsolutions/famconnect/viewmodel/EventViewModel.kt:78-97 | a blank familyId is filled from the current family when one is loaded; nothing else changes |
| EventViewModelModule.EventViewModel.constructor | app/src/main/java/com/dsolutions/famconnect/viewmodel/EventViewModel.kt:19-29 | nothing loaded and no job running |
| EventViewModelModule.EventViewModel.StartLoadingEvents | app/src/main/java/com/dsolutions/famconnect/viewmodel/EventViewModel.kt:32-50 | the same family already loading or a blank id does nothing; otherwise a new collector job is started for the family, and the old one is not cancelled |
| EventViewModelModule.EventViewModel.StopLoadingEvents | app/src/main/java/com/dsolutions/famconnect/viewmodel/EventViewModel.kt:53-56 | the current job is cancelled and the events cleared |
| EventViewModelModule.EventViewModel.Collect | app/src/main/java/com/dsolutions/famconnect/viewmodel/EventViewModel.kt:44-49 | an active job replaces the events with a snapshot of its family; a failed snapshot ends the job |
| EventViewModelModule.EventViewModel.GetEventsForDate | app/src/main/java/com/dsolutions/famconnect/viewmodel/EventViewModel.kt:72-76 | exactly the loaded events starting on the date, in order, each as often as in the list |
| EventViewModelModule.EventViewModel.AddEvent | app/src/main/java/com/dsolutions/famconnect/viewmodel/EventViewModel.kt:78-97 | the event gets the back-filled familyId and createdBy from the signed-in user, then goes to the repository: a blank familyId throws and stores nothing, otherwise it is stored under the new id or nothing changes on failure; other families' events are unchanged |
| EventViewModelModule.EventViewModel.UpdateEvent | app/src/main/java/com/dsolutions/famconnect/viewmodel/EventViewModel.kt:99-115 | the back-filled event replaces the document with its id in its family, or nothing changes on failure; other families' events are unchanged |
| EventViewModelModule.EventViewModel.DeleteEvent | app/src/main/java/com/dsolutions/famconnect/viewmodel/EventViewModel.kt:117-132 | on success the event is deleted remotely and removed by id from the loaded list; on failure neither changes; other families' events are unchanged |
| EventViewModelModule.SnapshotCovers | app/src/main/java/com/dsolutions/famconnect/data/repository/wrapper/EventRepository.kt:46 | a snapshot has as many events as decodable documents, and contains exactly their events |
| EventViewModelModule.DistinctCardinality | app/src/main/java/com/dsolutions/famconnect/data/repository/wrapper/EventRepository.kt:46 | distinct document ids count once each |
| UserRepositoryModule.UserRepository.constructor | app/src/main/java/com/dsolutions/famconnect/data/repository/wrapper/UserRepository.kt:15-28 | empty store, with the given signed-in account |
| UserRepositoryModule.UserRepository.JoinFamily | app/src/main/java/com/dsolutions/famconnect/data/repository/wrapper/UserRepository.kt:170-192 | succeeds with the family id iff the family document exists, decodes and holds exactly the given PIN; a missing family, a wrong PIN and a failed read each give their message, and every error starts with "Could not join family: " |
| UserRepositoryModule.UserRepository.GetUserData | app/src/main/java/com/dsolutions/famconnect/data/repository/wrapper/UserRepository.kt:33-51 | the stored user iff it exists and the read succeeds |
| UserRepositoryModule.UserRepository.GetFamilyData | app/src/main/java/com/dsolutions/famconnect/data/repository/wrapper/UserRepository.kt:57-81 | the stored family iff it exists and the read succeeds; when every family document carries its own id (`Valid`), its id is the requested one |
| UserRepositoryModule.UserRepository.CreateFamily | app/src/main/java/com/dsolutions/famconnect/data/repository/wrapper/UserRepository.kt:200-226 | needs a signed-in account; stores the family under a fresh id owned by that account and returns the id, which `joinFamily` then accepts with the same PIN |
| UserRepositoryModule.UserRepository.AddUser | app/src/main/java/com/dsolutions/famconnect/data/repository/wrapper/UserRepository.kt:86-92 | a blank familyId throws; otherwise the user is stored under its id, or nothing changes on failure |
| UserRepositoryModule.UserRepository.UpdateUser | app/src/main/java/com/dsolutions/famconnect/data/repository/wrapper/UserRepository.kt:97-104 | a blank id throws; otherwise the user document is replaced, or nothing changes on failure |
| UserRepositoryModule.UserRepository.DeleteUser | app/src/main/java/com/dsolutions/famconnect/data/repository/wrapper/UserRepository.kt:109-115 | a blank id throws; otherwise the user document is removed, or nothing changes on failure |
| UserRepositoryModule.UserRepository.SignIn | app/src/main/java/com/dsolutions/famconnect/data/repository/wrapper/UserRepository.kt:153-161 | a newly created account becomes the signed-in one; documents are unchanged |
| UserViewModelModule.RegistrationErrors | app/src/main/java/com/dsolutions/famconnect/viewmodel/UserViewModel.kt:301-310 | a failure reports the raw message, or "An unknown error occurred." when there is none, preceded by the join-denied message iff it contains PERMISSION_DENIED |
| UserViewModelModule.UserViewModel.constructor | app/src/main/java/com/dsolutions/famconnect/viewmodel/UserViewModel.kt:33-55 | unknown auth state, login screen, no data, validation Idle |
| UserViewModelModule.UserViewModel.ValidateFamilyCredentials | app/src/main/java/com/dsolutions/famconnect/viewmodel/UserViewModel.kt:92-115 | Loading, then Success with the family's id and name iff the join and the reload both succeed; otherwise Error with the join message or the reload message |
| UserViewModelModule.UserViewModel.ResetFamilyValidationState | app/src/main/java/com/dsolutions/famconnect/viewmodel/UserViewModel.kt:121-123 | the validation state becomes Idle |
| UserViewModelModule.UserViewModel.LoadUserDataAndFamily | app/src/main/java/com/dsolutions/famconnect/viewmodel/UserViewModel.kt:128-175 | the account, its user, its family id and its family are needed in that order; the first missing one sets its error; loading ends on every path |
| UserViewModelModule.UserViewModel.CheckCurrentUser | app/src/main/java/com/dsolutions/famconnect/viewmodel/UserViewModel.kt:69-86 | signed in gives Authenticated and Home plus the data load of `LoadUserDataAndFamily` with its error chain; otherwise Unauthenticated and Login with nothing else changed |
| UserViewModelModule.UserViewModel.RegisterUser | app/src/main/java/com/dsolutions/famconnect/viewmodel/UserViewModel.kt:256-312 | creates the account, then for "create" the family under the new id owned by the account (nothing written if that fails), then stores the user with the family id and PIN; the user document is written iff registration succeeds; each failure's messages go to onError |
| RegisterScreenModule.CreateAccount | app/src/main/java/com/dsolutions/famconnect/view/user/RegisterScreen.kt:212-237 | the first failing check of missing fields, a password shorter than 8 and a mismatch gives its message; otherwise registerUser gets the user with empty ids and copied fields, with absent arguments as "" |
| RegisterScreenModule.FlagAgreesWithButton | app/src/main/java/com/dsolutions/famconnect/view/user/RegisterScreen.kt:128 | an accepted form is never flagged; a flagged form that passes the first two checks is refused for the mismatch; a mismatch is unflagged iff the repeat field is empty |
| RegisterScreenModule.LastAssigned | app/src/main/java/com/dsolutions/famconnect/view/user/RegisterScreen.kt:242-245 | the error state holds the last value assigned to it |
| RegisterScreenModule.ErrorAfterClick | app/src/main/java/com/dsolutions/famconnect/view/user/RegisterScreen.kt:211-246 | the error is reset first, then holds the failed check's message or the last onError message, and none after a success |
| RegisterScreenModule.ShownRegistrationError | app/src/main/java/com/dsolutions/famconnect/view/user/RegisterScreen.kt:242-245 | after a failed registration the raw message is shown; the join-denied message is delivered first and then overwritten |
| ChooseFamilyScreenModule.OnNext | app/src/main/java/com/dsolutions/famconnect/view/user/ChooseFamilyScreen.kt:200-235 | "create" navigates with (create, name, pin, name) iff all three fields are filled, the PIN has 4+ characters and the PINs match, otherwise it gives the first failing message; "join" validates iff id and PIN are non-blank; anything else asks for a selection |
| ChooseFamilyScreenModule.PinLengthBeforeMismatch | app/src/main/java/com/dsolutions/famconnect/view/user/ChooseFamilyScreen.kt:204-207 | a short PIN is reported for its length, never as a mismatch |
| ChooseFamilyScreenModule.ErrorShown | app/src/main/java/com/dsolutions/famconnect/view/user/ChooseFamilyScreen.kt:183 | the client-side error wins; otherwise the Error state's message; otherwise nothing |
| ChooseFamilyScreenModule.ClickNext | app/src/main/java/com/dsolutions/famconnect/view/user/ChooseFamilyScreen.kt:197-239 | the click clears the error and resets the state to Idle first, then carries out `OnNext`; a credential check ends in Success with the family's id and name, or Error with the join message or the reload message; the session fields are unchanged; afterwards the button is enabled again whenever a selection exists |
| ChooseFamilyScreenModule.OnValidationState | app/src/main/java/com/dsolutions/famconnect/view/user/ChooseFamilyScreen.kt:54-61 | a Success state navigates as a join with the family's id, no PIN and its name, then resets to Idle; other states do nothing; the session fields are unchanged |
| Strings.IsWhitespace | app/src/main/java/com/dsolutions/famconnect/view/calendar/EventDialog.kt:428 | a whitespace character is never a comma, a digit or a letter |
| Strings.IsBlank | app/src/main/java/com/dsolutions/famconnect/viewmodel/EventViewModel.kt:87 | the empty text is blank, and a blank text holds no comma |
| Strings.Contains | app/src/main/java/com/dsolutions/famconnect/viewmodel/UserViewModel.kt:305 | the empty text is contained in every text, and a contained text is no longer than the text |
| Strings.IntToString | app/src/main/java/com/dsolutions/famconnect/view/calendar/EventDialog.kt:464 | a number prints as at least one character, starting with "-" iff it is negative, and as its decimal digits when it is not |
| Strings.PadStart | app/src/main/java/com/dsolutions/famconnect/view/calendar/EventDialog.kt:464-465 | padding to a non-negative length gives the larger of the length and the text's length, ending with the text and filled with the pad character in front |
| Strings.MessageText | app/src/main/java/com/dsolutions/famconnect/data/repository/wrapper/UserRepository.kt:224 | a message renders as itself in a string template, a missing one as "null" |
| Model.StoredUser | app/src/main/java/com/dsolutions/famconnect/model/User.kt:17-18 | the stored user is the user without its PIN, every other field kept |
| Model.StoredFamily | app/src/main/java/com/dsolutions/famconnect/model/Family.kt:12-15 | the stored family is the family without its users and events, every other field kept |
| Converters.FromStringList | app/src/main/java/com/dsolutions/famconnect/data/converters/Converters.kt:11 | an empty list stores as the empty text and a one-element list as that element |
| CalendarView.SpanOf | app/src/main/java/com/dsolutions/famconnect/view/calendar/CalendarView.kt:197-198 | an event's span runs from the local date of its start to the local date of its end |
| CalendarView.TouchesIffRunsInWeek | app/src/main/java/com/dsolutions/famconnect/view/calendar/CalendarView.kt:196-201 | for an event that does not end before it starts, the week filter keeps it iff it runs on one of the week's dates |
| CalendarView.WeekCellsAreRunDays | app/src/main/java/com/dsolutions/famconnect/view/calendar/CalendarView.kt:204-212 | for events kept by the week filter, an event's columns are exactly the week's dates it runs on |
| CalendarView.LayOutWeek | app/src/main/java/com/dsolutions/famconnect/view/calendar/CalendarView.kt:193-224 | a week row filters the events to the week and packs them in list order: each gets the first free row over the columns of the dates it runs on, and each day's count is the number of kept events covering it |
| CalendarViewCopy.IsLeapYear | app/src/main/java/com/dsolutions/famconnect/view/calendar/CalendarViewCopy.kt:62 | a leap year is divisible by 4; one divisible by 400 is leap; one divisible by 100 but not 400 is not |
| EventDialogModule.FormatTime | app/src/main/java/com/dsolutions/famconnect/view/calendar/EventDialog.kt:463-467 | the formatted time has at least five characters |
| EventRepositoryModule.EventRepository.constructor | app/src/main/java/com/dsolutions/famconnect/data/repository/wrapper/EventRepository.kt:14-22 | no family has any event documents yet |
| FamilyRepositoryModule.FamilyRepository.constructor | app/src/main/java/com/dsolutions/famconnect/data/repository/wrapper/FamilyRepository.kt:10-14 | the local table and the remote collection start empty |
| FamilyRepositoryModule.FamilyRepository.InsertLocal | app/src/main/java/com/dsolutions/famconnect/data/dao/FamilyDao.kt:11-12 | the row replaces any row with the same key; an unset key 0 is replaced by a fresh generated key; the remote collection is unchanged; every row stays under its own key |
| FamilyRepositoryModule.FamilyRepository.GetFamily | app/src/main/java/com/dsolutions/famconnect/data/repository/wrapper/FamilyRepository.kt:16-28 | first the cached row (or null) is emitted; then, when the fetch succeeds and the document exists, the fetched family replaces the cached row and is emitted; otherwise the cache is unchanged; a failed fetch ends the flow with its error |
| FamilyRepositoryModule.FamilyRepository.AddOrUpdateFamily | app/src/main/java/com/dsolutions/famconnect/data/repository/wrapper/FamilyRepository.kt:30-36 | the family is inserted locally first, then written remotely under the text of its numeric id; a failed remote write keeps the local insert |
| FamilyRepositoryModule.FamilyRepository.DeleteFamily | app/src/main/java/com/dsolutions/famconnect/data/repository/wrapper/FamilyRepository.kt:38-41 | the family is deleted locally first, then remotely; a failed remote delete keeps the local delete |

## Left out

- Compose rendering (sizes, colours, weights, pixel offsets) and navigation wiring. Navigation is returned as a value.
- Coroutines, `callbackFlow` listener registration and removal, and authentication listeners. Every repository call is one atomic step. A listener's collection is the separate `Collect` step.
- A snapshot listener error closes the flow with the exception. The model ends the job instead. What happens to the crashed coroutine is not modelled.
- The document store's order of documents in a snapshot. `Snapshot` promises the set and multiplicity, not the order.
- Time zones. The device zone's date conversions are the parameters `dayOf` and `atZone`.
- `EventDialogModule.CombineDateAndTime`: the instant for a date is whatever `atZone` gives. Daylight-saving gaps and overlaps are not modelled.
- `LocalTime.of` rejecting hours or minutes out of range.
- `Event.startDate` and `endDate` as 64-bit longs. They are unbounded integers here.
- The document store's path rules: empty ids and ids containing '/' are not rejected.
- Lengths are counted in characters, not UTF-16 code units.
- Whitespace is the fixed character list of `Strings.IsWhitespace`, taken from one Unicode version; characters added to the space categories later are not tracked.
- `FamilyRepositoryModule.FamilyRepository`'s remote map is kept apart from `UserRepositoryModule.UserRepository`'s `families` map, although in the app both are the same `families` collection with different document types (`FamilyEntity` and `Family`). A `Family` document read as a `FamilyEntity` is not modelled. Nothing in the app constructs `FamilyRepository`, so no behaviour of the app depends on it.
- SQLite's conversion of the text argument of `getFamilyById`. The model looks up the text key as given.
- `YearMonth`'s year range limits.
- `SecurityUtils.kt` (unused hashing), Room and dependency-injection setup, and the date/time type converters of `Converters.kt`.
- `CalendarScreen.kt`. Its date filter is `CalendarViewCopy.EventsForDate`.
- The user view model's `init` block, which registers an authentication listener and calls `checkCurrentUser`. In the model that call is the separate step `CheckCurrentUser`.
- `addUser`, `updateUser` and `deleteUser` of the user view model, which only forward to the repository and report through callbacks.
- `loginUser` of the user view model: it signs in through the authentication service, refreshes the ID token, then runs the data load and calls `onSuccess`; any failure goes to `onError`, with "An unknown login error occurred." for an exception without a message. Sign-in is outside the modelled core; the data load it runs is `UserViewModelModule.UserViewModel.LoadUserDataAndFamily`.
- Account creation and sign-in inside the authentication service. Their outcome is the `account` parameter of `RegisterUser` and the argument of `SignIn`.
- Changes to the caller's `Event` and `User` objects in place: `id`, `familyId` and `createdBy` are assigned on them. The model returns the changed copy as a value.
- The dialog's text fields are refilled from the edited event on every recomposition, which undoes typing while editing. Recomposition is not modelled: `Prefill` is one explicit step.
- `EventViewModelModule.EventViewModel.StartLoadingEvents`: starting a new family does not cancel the previous collector, exactly as written. The old job stays in `jobs`, still active, and can still overwrite `events`.
- `UserViewModelModule.UserViewModel.ValidateFamilyCredentials`: the fallback message for an exception without a message cannot occur. The join failures modelled always carry one.

## Findings

| source | as written | input that shows it | evidently intended | confidence | as-written member | corrected member |
|---|---|---|---|---|---|---|
| app/src/main/java/com/dsolutions/famconnect/view/calendar/CalendarView.kt:266-269 | the "+N" badge shows the number of events covering the day minus 3 | a week with three one-day events on Monday and one Monday–Tuesday event: the last one is put in the hidden fourth row, and on Tuesday only one event covers the day, so Tuesday shows neither the event nor a badge | the badge counts the events of that day in the hidden row, so that every event on the day is drawn or counted | medium, not executed | CalendarView.BadgeMissesHiddenEvent | CalendarView.HiddenBadgeAccountsForEveryEvent |
| app/src/main/java/com/dsolutions/famconnect/view/calendar/EventDialog.kt:445 | Save stores the participants field as a one-element list | editing an event with participants ["Anna","Ben"] and saving unchanged: the field holds "Anna,Ben" and the saved list is ["Anna,Ben"] | the field is split back the way it was joined, as the participants column codec does | high, not executed | EventDialogModule.ParticipantsCollapse | EventDialogModule.ParticipantsSurvive |
