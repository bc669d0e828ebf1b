# Doctor appointment booking: a Dafny model

This project models the logic of a small doctor-appointment web application.
Patients book half-hour appointments with a doctor through a three-step form.
Administrators list appointments by tab and change their status. The admin
add-doctor page sends a new doctor to the doctors route and, once the doctor
is created, posts default weekly working hours for it.

The model covers these parts:

- **The appointment store and its API route.** A POST checks that six fields are
  present and looks for a conflicting scheduled booking of the same doctor on
  the same date. It answers 409 on a conflict and otherwise appends a
  `SCHEDULED` row. A GET filters by status, type, a one-day date window, doctor
  and patient, and orders the rows by date. The status update used by the
  admin list is modelled too.
- **The working-hours route.** A POST stores one weekday range, always
  available. A GET lists one doctor's ranges, optionally for one weekday,
  ordered by weekday and then start time.
- **The booking form.** This covers the field handlers and the step gating of
  the wizard. On submit, it covers the 12-hour to 24-hour conversion of the slot
  label, the start-time string, the 30-minute end and the type map.
- **The admin appointment list.** This covers the tab-to-query mapping, the
  status menu, the status change applied after a successful PATCH, the
  patient-field fallbacks, the type label and the shortened id.
- **The two doctor forms.** This covers the education and experience row lists
  (append, edit one field, guarded remove) and the comma-separated languages.
  On the add-doctor page it also covers the required-field check, the image
  placeholder and the five default working-hours rows posted after a creation.
  The doctors route itself is not part of this model (see "## Left out").

The modules follow the program's structure:

- `Values`, `Text` and `Sorting` hold shared vocabulary. `Text` covers the
  JavaScript string operations the code relies on: split, join, trim,
  lower-case, first-occurrence replace, `parseInt` and `padStart`. It also
  holds the code-point string order the store is taken to sort by.
- `Ledger` holds the appointment entity and the store's invariant.
- `AppointmentsRoute` and `TimeSlotsRoute` model the two API routes.
- `BookingForm`, `AdminAppointmentList`, `DoctorRows`, `AddDoctorPage` and
  `AddDoctorForm` model the client components.

Modelling conventions:

- Times are integers in milliseconds.
- A store is a sequence of rows. A request returns its response together with
  the store after it.
- A field that is absent or the empty string is `None`, or fails `Filled`. This
  matches JavaScript truthiness on strings.
- Values the environment supplies are parameters: generated ids, parsed dates
  and the current day.

The invariant `Ledger.Consistent` says two things. First, every scheduled
appointment has a non-empty interval. Second, no two scheduled appointments of
the same doctor on the same date overlap.

`Ledger.SetStatus` models the PATCH handler of `app/api/appointments/[id]/route.ts`,
lines 42-58. Its contract says the PATCH fails with 500 exactly when no row has
the id. Otherwise every row with the id gets the new status and nothing else
changes. The lemmas in the table below about status changes build on it.

## Model

| member | source | states |
|---|---|---|
| Ledger.ParseStatus | app/api/appointments/route.ts:9-20 | a status string is accepted exactly when it is the name of a status, and then denotes that status |
| Ledger.ParseKind | app/api/appointments/route.ts:117-128 | a type string is accepted on insert exactly when it is the name of an appointment type |
| Ledger.LeavingScheduledKeepsConsistent | components/admin-appointment-list.tsx:260-272 | completing or cancelling appointments never creates a double booking |
| Ledger.RestoreOverRebookedSlotDoubleBooks | components/admin-appointment-list.tsx:273-277 | in any store, restoring a cancelled appointment whose time overlaps a scheduled booking of the same doctor on the same day succeeds and leaves two overlapping scheduled bookings |
| Ledger.RestoreCanDoubleBook | components/admin-appointment-list.tsx:273-277 | one concrete store: a cancelled 10:00 booking whose slot another patient booked again is restored into a double booking |
| AppointmentsRoute.ThreeClauseIsOverlap | app/api/appointments/route.ts:95-108 | for non-empty intervals the route's three-clause test is exactly half-open overlap |
| AppointmentsRoute.OverlapImpliesThreeClause | app/api/appointments/route.ts:95-108 | for any intervals, empty or reversed ones included, a half-open overlap meets the three-clause test |
| AppointmentsRoute.BackToBackDoesNotConflict | app/api/appointments/route.ts:95-108 | an appointment ending when the request starts does not conflict |
| AppointmentsRoute.IdenticalIntervalConflicts | app/api/appointments/route.ts:104-107 | a request for exactly an existing interval conflicts, even an empty or reversed one |
| AppointmentsRoute.FindConflict | app/api/appointments/route.ts:90-110 | the lookup finds nothing exactly when no scheduled row of the same doctor and date meets the three-clause test; otherwise it finds a row that does, the first in store order (the store's `findFirst` has no ordering, so which one is the model's choice, and no answer depends on it) |
| AppointmentsRoute.Post | app/api/appointments/route.ts:79-135 | a missing field gives 400, a conflict gives 409 "This time slot is already booked", an unknown type gives 500, and each of these leaves the store unchanged; success gives 201 and appends exactly one SCHEDULED row that copies the seven booking fields and drops patientInfo |
| AppointmentsRoute.PostKeepsNoDoubleBooking | app/api/appointments/route.ts:90-128 | no POST, whatever its interval, adds a booking that overlaps a competing one |
| AppointmentsRoute.PostKeepsConsistent | app/api/appointments/route.ts:90-128 | a POST with a non-empty interval keeps the store consistent; the premise is needed only for every scheduled booking having a non-empty interval, not for the absence of double bookings |
| AppointmentsRoute.RepeatedPostConflicts | app/api/appointments/route.ts:104-114 | repeating a successful POST gets 409 and changes nothing |
| AppointmentsRoute.NonCompetingRowIgnored | app/api/appointments/route.ts:90-95 | a row that is not scheduled, or belongs to another doctor or date, never changes a POST's answer |
| AppointmentsRoute.PostAcceptsReversedInterval | app/api/appointments/route.ts:85 | a request ending before it starts is booked, and the store then holds a scheduled row with an empty interval |
| AppointmentsRoute.ReversedBookingRefusesDisjointRequest | app/api/appointments/route.ts:85-114 | after an 11:00 to 08:00 request is booked, a 10:30 to 10:45 request for the same doctor and date gets 409 although the two do not overlap |
| AppointmentsRoute.PostChecked | app/api/appointments/route.ts:84-87 | with the interval check, a request whose end is not after its start gets 400; a well-formed request behaves exactly as in the route |
| AppointmentsRoute.PostCheckedKeepsConsistent | app/api/appointments/route.ts:84-128 | with the interval check, every request keeps the store consistent: no double booking and no empty or reversed scheduled booking |
| AppointmentsRoute.CheckedConflictIsOverlap | app/api/appointments/route.ts:84-114 | with the interval check and non-empty stored bookings, a request gets 409 exactly when it overlaps a scheduled booking of the same doctor and date |
| AppointmentsRoute.Select | app/api/appointments/route.ts:15-47 | the filtered rows are exactly the rows meeting every supplied filter, each as often as in the store; the date filter is the window [date, date + 1 day) |
| AppointmentsRoute.ByDateIsTotalPreorder | app/api/appointments/route.ts:67-69 | ordering by date is a total preorder |
| AppointmentsRoute.Get | app/api/appointments/route.ts:6-77 | an unknown status or type gives 500; otherwise 200 with exactly the matching rows in ascending date order |
| Sorting.Sort | app/api/appointments/route.ts:67-69 | the result is ordered and is a permutation of the input |
| TimeSlotsRoute.Post | app/api/time-slots/route.ts:4-23 | a NaN weekday gives 500 and stores nothing; otherwise the new row copies doctorId, the weekday and both times, is marked available, and is appended |
| TimeSlotsRoute.Select | app/api/time-slots/route.ts:35-41 | exactly the doctor's rows, restricted to the weekday when one is given |
| TimeSlotsRoute.SlotOrderIsTotalPreorder | app/api/time-slots/route.ts:42 | ordering by weekday and then start-time string is a total preorder |
| TimeSlotsRoute.Get | app/api/time-slots/route.ts:25-50 | a missing doctorId gives 400 "Doctor ID is required", a NaN weekday gives 500; otherwise 200 with exactly the matching rows ordered by weekday and then start time |
| TimeSlotsRoute.OnlyRowsOrErrors | app/api/time-slots/route.ts:18-21 | every answer is the created available row, a list of the doctor's stored rows, or a 4xx/5xx error |
| TimeSlotsRoute.ClockOrderIsChronological | app/api/time-slots/route.ts:42 | for zero-padded "HH:MM" strings, string order is chronological order |
| Text.Split | app/admin/add-doctor/page.tsx:102 | splitting at a one-character separator gives one more piece than there are separators, none containing the separator |
| Text.JoinSplit | app/admin/add-doctor/page.tsx:102 | joining the pieces of a split with the separator gives back the string |
| Text.SplitJoin | app/admin/add-doctor/page.tsx:102 | splitting a join of separator-free pieces gives back the pieces |
| Text.Trim | app/admin/add-doctor/page.tsx:102 | the trimmed string is the piece of the input that starts at its first non-blank character and has only blanks after it; it neither starts nor ends with a blank |
| Text.TrimKeepsTrimmed | app/admin/add-doctor/page.tsx:102 | a string without blanks at its ends is its own trim |
| Text.ParseInt | components/booking-form.tsx:81 | after a "0x" or "0X" prefix the value of the hexadecimal digits that follow, otherwise the value of the leading decimal digits; no number exactly when there are no such digits |
| Text.TwoDigits | components/booking-form.tsx:89 | an hour below 100, printed and padded to two characters, is two digits denoting that hour |
| Text.LexLeqTotal | app/api/time-slots/route.ts:42 | any two strings are comparable in character order |
| Text.LexLeqTransitive | app/api/time-slots/route.ts:42 | character-by-character string order is transitive |
| BookingForm.SetField | components/booking-form.tsx:52-63 | each input, radio or slot handler sets its own field and leaves every other field as it was |
| BookingForm.Apply | components/booking-form.tsx:52-71 | Continue adds one to the step, Back subtracts one, and an edit changes only its field |
| BookingForm.StartInv | components/booking-form.tsx:24-34 | the wizard starts on step 1 with the "video" type and no slot |
| BookingForm.ApplyKeepsInv | components/booking-form.tsx:253 | every offered event keeps the step in 1..3, keeps the type a radio value and the slot a button label, and never passes a closed Continue gate |
| BookingForm.RunKeepsInv | components/booking-form.tsx:313 | after any sequence of offered events, the summary step is only reached with type, date, slot, name, phone and email all filled |
| BookingForm.To24 | components/booking-form.tsx:81-87 | PM below 12 adds 12, 12 AM becomes 0, every other hour is unchanged, and a NaN hour stays NaN |
| BookingForm.To24IsClockBijection | components/booking-form.tsx:83-87 | hours 1..12 with AM or PM convert into 0..23, and the conversion is a bijection between the 12-hour and 24-hour clocks |
| BookingForm.SlotStartOfLabel | components/booking-form.tsx:79-89 | for an "hh:mm AM/PM" label the start string is date + "T" + the two-digit 24-hour hour + ":" + the label's minutes + ":00" |
| BookingForm.AvailableSlotsAreLabels | components/booking-form.tsx:37-50 | every slot button carries a well-shaped "hh:mm AM/PM" label |
| BookingForm.TypeMap | components/booking-form.tsx:97-101 | video, phone and in-person map to VIDEO, PHONE and IN_PERSON; any other key maps to no type |
| BookingForm.EndTime | components/booking-form.tsx:92-94 | the end is exactly 30 minutes after the start |
| BookingForm.SubmissionIsComplete | components/booking-form.tsx:104-118 | a submission from the summary step passes the presence check with a known type and a non-empty interval, so the route refuses it only on a conflict |
| AdminAppointmentList.TabListsWhatItShows | components/admin-appointment-list.tsx:57-70 | each tab's query is accepted, and it answers exactly the completed, cancelled, scheduled, today's or all appointments respectively |
| AdminAppointmentList.Fallback | components/admin-appointment-list.tsx:142-152 | the flattened value if non-empty, else the nested value if non-empty, else the default |
| AdminAppointmentList.PatientName | components/admin-appointment-list.tsx:142-144 | the shown name is never empty; it is "Unknown Patient" when neither name is filled |
| AdminAppointmentList.PatientPhone | components/admin-appointment-list.tsx:146-148 | the shown phone is never empty; it is "N/A" when neither phone is filled |
| AdminAppointmentList.PatientEmail | components/admin-appointment-list.tsx:150-152 | the shown email is never empty; it is "N/A" when neither email is filled |
| AdminAppointmentList.TypeLabelIsFormKey | components/admin-appointment-list.tsx:228 | the lower-cased type with its first "_" replaced by "-" is the booking form's key for that type (IN_PERSON gives "in-person") and maps back to the type |
| AdminAppointmentList.ShortId | components/admin-appointment-list.tsx:222 | the shown id is the first min(8, length) characters of the id |
| AdminAppointmentList.MenuTransitions | components/admin-appointment-list.tsx:260-277 | a scheduled appointment offers exactly COMPLETED and CANCELLED, a cancelled one exactly SCHEDULED, and the others nothing; no action keeps the status or leads to RESCHEDULED |
| AdminAppointmentList.UpdateStatus | components/admin-appointment-list.tsx:110-116 | rows with the id get the new status; length, order, other fields and other rows are unchanged |
| AdminAppointmentList.UpdateMatchesStore | components/admin-appointment-list.tsx:110-116 | the local update does to the listed appointments exactly what the store's update does |
| AdminAppointmentList.HandleStatusChange | components/admin-appointment-list.tsx:95-116 | a failed PATCH leaves the list and the store unchanged; a successful one updates both |
| AdminAppointmentList.HandleStatusChangeKeepsListInSync | components/admin-appointment-list.tsx:95-116 | a list of stored appointments, such as a tab's filtered and date-ordered answer, keeps its rows and order after a status change, succeeded or failed, and each row still equals the stored appointment with its id when ids are unique |
| AdminAppointmentList.MenuCompleteOrCancelKeepsConsistent | components/admin-appointment-list.tsx:260-272 | the menu's actions on a scheduled appointment keep the store free of double bookings |
| DoctorRows.SetEducation | app/admin/add-doctor/page.tsx:42-49 | an education input sets its own field of the row and no other |
| DoctorRows.SetExperience | app/admin/add-doctor/page.tsx:51-58 | an experience input sets its own field of the row and no other |
| DoctorRows.Append | app/admin/add-doctor/page.tsx:60-62 | adding gives one blank row more, and the earlier rows are unchanged |
| DoctorRows.EditEducation | app/admin/add-doctor/page.tsx:42-49 | only the named field of row `index` changes |
| DoctorRows.EditExperience | app/admin/add-doctor/page.tsx:51-58 | only the named field of row `index` changes |
| DoctorRows.RemoveAt | app/admin/add-doctor/page.tsx:66 | exactly the row at the index is dropped and the others keep their order; an index outside the list drops nothing |
| DoctorRows.RemoveUndoesAppend | app/admin/add-doctor/page.tsx:60-68 | removing the row just added restores the list |
| DoctorRows.GuardedRemove | app/admin/add-doctor/page.tsx:64-68 | removal happens only while more than one row is left, so a non-empty list stays non-empty |
| DoctorRows.Languages | app/admin/add-doctor/page.tsx:102 | entry i is the trim of the i-th comma-separated piece: commas + 1 entries, none containing a comma or starting or ending with a blank |
| DoctorRows.LanguagesOfPieces | app/admin/add-doctor/page.tsx:102 | comma-free pieces joined by commas, blanks included, read back as the pieces each trimmed |
| DoctorRows.LanguagesOfJoin | app/admin/add-doctor/page.tsx:102 | trimmed names joined by commas read back as exactly those names |
| DoctorRows.LanguagesOfEmpty | app/admin/add-doctor/page.tsx:102 | an empty field gives one empty language |
| AddDoctorPage.SetDoctor | app/admin/add-doctor/page.tsx:37-40 | a doctor input sets its own field and no other |
| AddDoctorPage.Apply | app/admin/add-doctor/page.tsx:37-78 | each handler touches only its own part of the page and never empties a row list |
| AddDoctorPage.RowListsNeverEmpty | app/admin/add-doctor/page.tsx:33-78 | whatever the user does, both row lists keep at least one row |
| AddDoctorPage.Submit | app/admin/add-doctor/page.tsx:86-107 | nothing is sent exactly when the name or specialty is empty; otherwise the payload carries the inputs, the rows, the parsed languages and a non-empty image URL, the placeholder replacing an empty one |
| AddDoctorPage.DefaultHours | app/admin/add-doctor/page.tsx:124-135 | five bodies, weekdays 1 to 5, each 09:00 to 17:00 for the new doctor |
| AddDoctorPage.PostAll | app/admin/add-doctor/page.tsx:124-135 | posting the bodies one after another appends one available row per body and keeps the earlier rows |
| AddDoctorPage.AfterSubmit | app/admin/add-doctor/page.tsx:86-135 | no working hours are stored when the form is refused or the doctor is not created |
| AddDoctorPage.CreatedDoctorGetsWeekdayHours | app/admin/add-doctor/page.tsx:120-135 | a created doctor gets exactly five new available rows, weekdays 1 to 5, 09:00 to 17:00, and earlier rows stay |
| AddDoctorForm.SetForm | components/AddDoctorForm.tsx:26-31 | a form input sets its own field and no other |
| AddDoctorForm.Apply | components/AddDoctorForm.tsx:26-63 | each handler touches only its own part of the form, and no row list shrinks |
| AddDoctorForm.Submit | components/AddDoctorForm.tsx:65-73 | the payload carries the inputs and rows as they are, with no required field, and the languages as the trimmed comma-separated pieces of the field |
| AddDoctorForm.SubmitReadsTypedLanguages | components/AddDoctorForm.tsx:72 | trimmed names typed with commas between them are sent as exactly those names |

## Left out

- JavaScript `Date` is left out: parsing, `toISOString`, `setDate`, `setMinutes`, locale formatting and time zones. Dates and times are integer milliseconds. The route's one-day window is 24 hours, so a day with a daylight-saving change is not modelled. The booking form's parsed date and start time are parameters.
- Prisma, `fetch`, `NextResponse`, toasts, alerts and navigation are left out. The stores are sequences, and responses are a status with a body or an error message.
- Requests run one at a time. The POST's conflict lookup and insert are not atomic in the source, and concurrent requests are not modelled.
- Field values in request bodies are strings or integers. A non-string value where the route expects a string, and the database's checks on foreign keys and column types, are not modelled. The exceptions are the enumeration columns and the integer weekday.
- TimeSlotsRoute.Post: `Number(day)` is modelled only for integer results and NaN. A fractional weekday or a missing doctorId, which the store would refuse, is not modelled.
- TimeSlotsRoute.Get: the caller applies `Number` to the day parameter, so an empty parameter arrives as weekday 0.
- AppointmentsRoute.Get and TimeSlotsRoute.Get: the store's order among rows with equal keys is unspecified. The contracts promise order and exact contents only.
- Text.Lower: lower-cases ASCII letters only. The model applies it only to the type enumeration names.
- Text.ParseInt: a leading sign and leading blanks, which `parseInt` applies and skips, are not modelled. The text it reads in the booking form is the two-digit hour of a slot label.
- Text.LexLeq: the working-hours GET is sorted by the database on the startTime column, under the database's collation. The model assumes that collation is code-point order. The route accepts any startTime string, but zero-padded "HH:MM" strings all have their colon in the same place, so any collation that orders the digits 0 to 9 ranks them as this order does, and TimeSlotsRoute.ClockOrderIsChronological shows it is chronological order there.
- AddDoctorPage.AfterSubmit: `created` stands for the doctors route's answer, and that route is not part of this model. As written, that route passes the education and experience fields to `JSON.parse` (app/api/doctors/route.ts:24-25). The page sends them as arrays of rows (app/admin/add-doctor/page.tsx:96-107), and the lists are never empty, so the route answers 500 and the page posts no working hours. The case in which `created` holds an id, which AddDoctorPage.CreatedDoctorGetsWeekdayHours describes, is therefore not reached by the page and the route as written.
- The slot-button labels are a fixed list in the source. No generator turns working hours into bookable slots.
- `JSON.stringify` of the row lists, and the float fields consultationFee and rating, are left out. On the add-doctor page they stay the strings the inputs hold.
- AddDoctorForm.Submit: the standalone form's numeric fee, rating and review count fields are not modelled.
- DoctorRows.Replace: inputs exist only for rows on screen, so edits name an existing row. An edit of a missing row, which would throw, is not modelled.
- The page's remove guard reads the list length of the render that drew the button, and the model reads the current list. These agree when events are handled one at a time.
- The doctors route and the appointment GET/DELETE by id are not part of this model. Neither are the pure presentation files: header, footer, cards, stepper, search and the admin dashboard's mock counts.

## Findings

| source | as written | input that shows it | evidently intended | confidence | as-written member | corrected member |
|---|---|---|---|---|---|---|
| app/api/appointments/route.ts:85 | POST checks only that startTime and endTime are present, never that the end is after the start | a request from 11:00 to 08:00 for a free doctor is booked with 201; a later request from 10:30 to 10:45 for the same doctor and date is then refused with 409, although the two do not overlap | refuse a request whose end is not after its start, so every stored booking has a non-empty interval and a 409 means a real overlap | medium, not executed | AppointmentsRoute.ReversedBookingRefusesDisjointRequest | AppointmentsRoute.CheckedConflictIsOverlap |
