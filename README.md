# Appointment booking core, modelled in Dafny

This project models the appointment core of a doctor/patient booking service built on
Express and Mongoose. It covers:

- the `Appointment` schema: trim setters, the `HH:MM` rule, the status enumeration with
  default `pending`, and the unique index on (doctor, date, time);
- the two booking implementations over one collection:
  - the mounted router (`server/routes/appointments.js`, mounted at `server/server.js:64-72`);
  - the richer controller (`server/controllers/appointments.js`), which no route reaches;
- the `protect` and `authorize` middleware;
- the express-validator chain for a booking body;
- the prescription controller: line cleaning, prescription creation, and the body of the
  prescription e-mail.

## How the model is laid out

- **`Wrappers`, `Text`, `Clock`, `Accounts`, `Http`**
  - `Option`/`Result`.
  - JavaScript `trim`, `split` and truthiness; the `escape()` sanitizer.
  - The strict clock format and the schema's looser one.
  - Users and roles.
  - The body fields and the reasons a handler refuses a request.
- **`AppointmentSchema`**
  - The document, and what `Appointment.create` builds from a draft.
  - What `save()` reports.
  - The unique index, and the booking correctness property `NoActiveDoubleBooking`.
  - Dates are instants in milliseconds; `DayOf` gives the local day and `StartOfDay` local
    midnight.
- **`AppointmentStore`**
  - A `Store` class whose `records` field is the collection, in insertion order.
  - `Valid()` holds the collection invariant: ids below `nextId` and distinct, every
    document well formed, keys unique. A well-formed document's status is the reading
    of its stored text (`IsParsed`), so an unlisted status never carries an enumerated name.
  - Its methods are the writes the handlers issue: `create`, `save`, `findOneAndUpdate`
    without validators, and `deleteOne`.
  - Mongoose runs the trim setters when a field is assigned and builds the document,
    with its `_id`, before inserting it. So `Create` receives a document `Build` already
    validated, and `Save` receives one whose setters have run; the unique index is what
    these methods decide.
- **`AppointmentController`, `AppointmentRoutes`**
  - Each HTTP handler is a method on the store.
  - Each method returns the status code with either the data or the reason.
  - The order of the checks in a handler is the order in its `ensures`.
- **`BookingComparison`**: lemmas that set the two implementations side by side.
- **`Auth`**: `protect` as a method on a request object, `authorize` as a function.
- **`BookingValidation`**: the express-validator chain.
- **`Prescriptions`**: the prescription controller.

Inputs the handlers get from outside become parameters:

- the current day (`today`);
- `jwt.verify` (`verify`);
- `isISO8601` (`isIso`);
- the outcome of moment's strict parse (`DayField`, `DateUpdate`) and of `new Date(date)`
  (`RouteDate`);
- the result of `sendEmail` (`delivered`);
- the user directory (`Directory`);
- express-validator's report for the controller (`errs`).

An id that is not a valid ObjectId is `IdText.NotObjectId`. On that path Mongoose throws a
`CastError`.

### Behaviour of the code worth knowing

- **Status changes**: the two status-update handlers check no transition.
  - The controller's `UpdateAppointmentStatus` accepts any enumerated status after any
    other.
  - The route's `UpdateStatus` stores any text at all, including texts outside the enum.
  - The other handlers do check the current status. `cancelAppointment` refuses a
    cancelled or completed appointment with 400. `updateAppointment` refuses, with 400, any
    appointment that is not pending.
- **Conflicts**:
  - The controller answers a slot it finds taken with 400, and the unique index's
    duplicate-key error with 500.
  - Only the route answers 409.
- **DELETE** removes the document at the mounted route. Only the unmounted controller's
  `cancelAppointment` keeps it, with status `cancelled`.
- **Listing order**: the mounted routes sort ascending by date, then time.
- **Query filters**: Mongoose casts a filter's value through the path's setters. The
  route's pre-check therefore looks up the trimmed time, the key the document would be
  stored under.

## Model

| member | source | states |
|---|---|---|
| Text.TrimStart | server/models/Appointment.js:21 | a suffix of the input, starting at a character that is not white space, with only white space cut before it |
| Text.TrimEnd | server/models/Appointment.js:21 | a prefix of the input, ending at a character that is not white space, with only white space cut after it |
| Text.Trim | server/models/Appointment.js:21 | the result has no leading or trailing white space and is no longer than the input |
| Text.TrimMargins | server/models/Appointment.js:21 | the trimmed text is a slice of the input with only white space before and after it |
| Text.TrimOfPadded | server/middleware/validateAppointment.js:25 | trimming a trimmed text padded with white space on both sides gives back the text |
| Text.TrimIdempotent | server/models/Appointment.js:30 | trimming twice is trimming once |
| Text.TrimmedIsFixed | server/models/Appointment.js:40 | a text without surrounding white space is left unchanged by trimming |
| Text.TrimWithin | server/controllers/prescriptionController.js:15 | trimming introduces no character the input lacks |
| Text.Split | server/controllers/prescriptionController.js:15 | at least one piece, no piece holds the separator, and joining the pieces gives back the text |
| Text.SplitWithout | server/controllers/prescriptionController.js:15 | a text without the separator splits into itself alone |
| Text.SplitAtSeparator | server/controllers/prescriptionController.js:15 | splitting at a first separator gives the first piece, then the pieces of the rest |
| Text.JoinAppend | server/controllers/prescriptionController.js:15 | joining two lists of pieces in a row is joining each and putting one separator between |
| Text.SplitConcat | server/controllers/prescriptionController.js:15 | splitting two texts joined by a separator gives the pieces of the first, then those of the second |
| Text.SplitJoin | server/controllers/prescriptionController.js:15-16 | splitting the join of separator-free pieces gives back the pieces |
| Text.FirstPiece | server/middleware/auth.js:12 | the first piece of a split is a prefix of the text, ending at the end or at a separator |
| Text.EscapeChar | server/middleware/validateAppointment.js:34 | one character becomes a non-empty text whose only HTML-special character is the `&` of an entity |
| Text.Escape | server/middleware/validateAppointment.js:34 | no HTML-special character survives except the `&` of an entity, and the text never shrinks |
| Text.UnescapeEscapeChar | server/middleware/validateAppointment.js:34 | decoding an escaped character followed by anything gives back that character first |
| Text.UnescapeEscape | server/middleware/validateAppointment.js:34 | decoding the escaped text gives back the text |
| Text.EscapePlain | server/middleware/validateAppointment.js:34 | a text without HTML-special characters is stored as it is |
| Text.StrLeTotal | server/routes/appointments.js:111 | the string order that sorts `time` is total |
| Text.StrLeTrans | server/routes/appointments.js:111 | that order is transitive |
| Clock.DigitChar | server/controllers/appointments.js:412-419 | the digit written for a value below ten reads back as that value |
| Clock.ParseClock | server/controllers/appointments.js:8-11 | a reading exists exactly for texts of the strict `HH:MM` rule; hour < 24, minute < 60, and the reading prints back to the text |
| Clock.ClockTimeRoundTrip | server/controllers/appointments.js:8-11 | every hour below 24 and minute below 60 prints to a strict time that reads back to them |
| Clock.SchemaTimeIsLooser | server/models/Appointment.js:22-25 | the schema's pattern accepts exactly the strict times and those missing the hour's leading zero, e.g. `9:30` |
| Clock.SlotTemplateShape | server/controllers/appointments.js:411-420 | sixteen slots from `09:00` to `16:30`, slot k being strict and 540 + 30k minutes after midnight |
| Clock.SlotTemplateStep | server/controllers/appointments.js:415-418 | each pass of the inner loop appends the next slot of the template |
| Clock.SlotTemplateAscending | server/controllers/appointments.js:411-420 | the slots are in strictly increasing time order, so all distinct |
| AppointmentSchema.DayRange | server/controllers/appointments.js:398-405 | an instant is in `[startOf(day), startOf(day+1))` exactly when it falls on that day |
| AppointmentSchema.ParseStatus | server/models/Appointment.js:32-36 | a status text maps to a status that prints back to it, outside the enumeration exactly for other texts |
| AppointmentSchema.Build | server/models/Appointment.js:3-46 | a document is built exactly when the draft violates no rule; it stores the trimmed texts, takes `pending` and `''` as defaults, and is well formed |
| AppointmentSchema.SavedIsWellFormed | server/models/Appointment.js:18-36 | a document whose trimmed fields pass `save()` validation is well formed, with an enumerated status |
| AppointmentSchema.StrictTimeIsStoredAsIs | server/controllers/appointments.js:111-118 | a strict time passes the schema and is stored unchanged |
| AppointmentSchema.WellFormedIsNormal | server/models/Appointment.js:18-41 | the setters leave a stored document unchanged; it fails re-validation only through an unlisted status |
| AppointmentSchema.WellFormedViolations | server/models/Appointment.js:18-36 | a well-formed document's only possible violation is its status |
| AppointmentSchema.SchemaTimeIsTrimmed | server/models/Appointment.js:21-25 | a time matching the schema pattern is non-empty and has no surrounding white space |
| AppointmentSchema.UniqueIndexPreventsDoubleBooking | server/models/Appointment.js:48-51 | unique keys imply no slot holds two pending/confirmed appointments |
| AppointmentSchema.UniqueIndexCountsClosedAppointments | server/models/Appointment.js:51 | a cancelled or completed appointment still blocks every other document with its key |
| AppointmentStore.IndexOf | server/controllers/appointments.js:266 | finds a position exactly when some document has the id, and the document there has it |
| AppointmentStore.AppendKeepsKeysDistinct | server/models/Appointment.js:51 | appending a document with a fresh id and a free key keeps ids and keys unique |
| AppointmentStore.ReplaceKeepsKeysDistinct | server/models/Appointment.js:51 | replacing a document by one with its id and a key no other holds keeps ids and keys unique |
| AppointmentStore.RemoveKeepsKeysDistinct | server/routes/appointments.js:229 | removing a document keeps ids and keys unique |
| AppointmentStore.ReplaceKeepsValid | server/controllers/appointments.js:292-293 | the collection invariant survives replacing a document by a well-formed one with its id and a key no other holds |
| AppointmentStore.AppendKeepsValid | server/models/Appointment.js:51 | the collection invariant survives appending a well-formed document with the next id and a free key |
| AppointmentStore.SaveKeepsValid | server/controllers/appointments.js:292-293 | the collection invariant survives replacing a document by a well-formed one with its id and a key no other document holds |
| AppointmentStore.RemoveKeepsValid | server/routes/appointments.js:229 | the collection invariant survives removing a document, and its id is no longer stored |
| AppointmentStore.OwnKeyNotHeldByOther | server/models/Appointment.js:51 | in a valid collection no other document holds a document's own key |
| AppointmentStore.Store.constructor | server/models/Appointment.js:53 | an empty, valid collection |
| AppointmentStore.Store.FindById | server/controllers/appointments.js:266 | a document is found exactly when one with the id is stored, and it has the id |
| AppointmentStore.Store.Create | server/models/Appointment.js:51 | the insert of a built document with the next id: a duplicate-key error, with nothing changed, exactly when its key is held; otherwise the document is appended and the next id advances; the invariant is kept |
| AppointmentStore.Store.Save | server/controllers/appointments.js:292-293 | validation of the document, then the unique index excluding itself; on success exactly that document is replaced, nothing else changes and the invariant is kept |
| AppointmentStore.Store.SetStatusWhere | server/routes/appointments.js:169-173 | updates exactly the document with that id and doctor, setting only its status to the reading of the given text, without validation; nothing changes when none matches |
| AppointmentStore.Store.Remove | server/routes/appointments.js:229 | exactly the document with the id is removed, the rest stay in order |
| AppointmentController.Code | server/controllers/appointments.js:16-157 | the controller answers only 400, 401, 404 or 500, with 400 for every refusal except not-authorized, not-found and server error |
| AppointmentController.BookingRejection | server/controllers/appointments.js:18-108 | a booking is refused exactly when a field check fails, the doctor is unknown, the day is missing, malformed or past, or an open appointment holds the exact date and time; validation errors come first |
| AppointmentController.CreateAppointment | server/controllers/appointments.js:16-157 | refusals leave the collection alone; otherwise the document stores the day's midnight, the time, the trimmed symptoms and `pending`, answered with 201; schema errors give 400, a duplicate key 500 |
| AppointmentController.ClosedSlotPassesCheckButHitsIndex | server/controllers/appointments.js:96-118 | a slot held only by a cancelled or completed appointment passes the conflict check yet its key is held, so `create` fails |
| AppointmentController.UpdateAppointmentStatus | server/controllers/appointments.js:255-310 | missing status 400, bad id 400, unknown id 404, not the doctor 401, status outside the enum 400; otherwise the status is saved, from any status to any enumerated one |
| AppointmentController.CancelAppointment | server/controllers/appointments.js:315-361 | bad id 400, unknown 404, a user who is neither its patient nor its doctor 401, already cancelled or completed 400; otherwise the document stays with status `cancelled` |
| AppointmentController.AllSlots | server/controllers/appointments.js:411-420 | the nested loops produce exactly the half-hour slot template |
| AppointmentController.BookedTimes | server/controllers/appointments.js:398-408 | a time is booked exactly when an open appointment of the doctor on that day has it |
| AppointmentController.Without | server/controllers/appointments.js:423 | a slot is kept exactly when it is in the template and not booked |
| AppointmentController.WithoutKeepsOrder | server/controllers/appointments.js:423 | filtering keeps the slots in ascending time order |
| AppointmentController.GetAvailableSlots | server/controllers/appointments.js:366-439 | missing date, bad id, unknown doctor and malformed date are all 400; otherwise ascending slots, each exactly a template slot no open appointment of that day holds |
| AppointmentController.EditRejection | server/controllers/appointments.js:469-527 | an edit is refused exactly when the user is not the patient, the appointment is not pending, the new date is malformed, the new time is not a strict `HH:MM`, or the slot changes and an open other appointment holds it |
| AppointmentController.UpdateAppointment | server/controllers/appointments.js:444-555 | refusals in the handler's order leave the collection alone; otherwise the edited date, time and symptoms are saved in place of the old document; schema errors give 400, a duplicate key 500 |
| AppointmentController.OwnSlotNeverConflicts | server/controllers/appointments.js:512-519 | in a valid collection, rescheduling a stored appointment to the slot it holds is never refused as taken, because the query excludes its own id |
| AppointmentRoutes.Code | server/routes/appointments.js:13-99 | 409 exactly for a taken slot, 404 exactly for an unknown doctor or appointment |
| AppointmentRoutes.EmptyFields | server/routes/appointments.js:29-34 | no field is reported exactly when all four are present and non-empty |
| AppointmentRoutes.RouteRejection | server/routes/appointments.js:26-72 | a booking is refused exactly when it does not reach the pre-check or the pre-check finds the trimmed key held, whatever the holder's status; 409 exactly in the latter case |
| AppointmentRoutes.HeldTimeIsTrimmed | server/models/Appointment.js:21 | every stored key's time is trimmed |
| AppointmentRoutes.PaddedTimeCaughtByPrecheck | server/routes/appointments.js:61-72 | a held time padded with white space is refused with 409 by the pre-check, since the filter's time is trimmed |
| AppointmentRoutes.BookAppointment | server/routes/appointments.js:26-102 | refusals leave the collection alone; a request that reaches the pre-check is answered 409 exactly when its trimmed key is held; a draft the schema rejects is 500; otherwise 201 with the trimmed document appended |
| AppointmentRoutes.UpdateStatus | server/routes/appointments.js:153-194 | empty status 400, bad id 500, no document of this doctor 404; otherwise only its status changes, to any text |
| AppointmentRoutes.DeleteAppointment | server/routes/appointments.js:199-244 | bad id 500, unknown 404, neither patient nor doctor 403; otherwise the document is removed |
| AppointmentRoutes.SlotLeTotal | server/routes/appointments.js:111 | the (date, time) order is total |
| AppointmentRoutes.SlotLeTrans | server/routes/appointments.js:111 | the (date, time) order is transitive |
| AppointmentRoutes.ConsSorted | server/routes/appointments.js:111 | an element below a sorted list keeps it sorted in front |
| AppointmentRoutes.Insert | server/routes/appointments.js:111 | inserting into a sorted list keeps it sorted and adds exactly that element |
| AppointmentRoutes.InsertAtHead | server/routes/appointments.js:111 | an element below the head goes in front, keeping the order |
| AppointmentRoutes.InsertBelowHead | server/routes/appointments.js:111 | an element above the head goes after it, keeping the order |
| AppointmentRoutes.SortBySlot | server/routes/appointments.js:111 | sorted ascending by date, then time, and a permutation of the input |
| AppointmentRoutes.Where | server/routes/appointments.js:109 | each document is kept as often as stored if it matches, else dropped |
| AppointmentRoutes.PatientAppointments | server/routes/appointments.js:107-125 | exactly the user's appointments as a patient, each as often as stored, sorted ascending |
| AppointmentRoutes.DoctorAppointments | server/routes/appointments.js:130-148 | exactly the doctor's appointments, each as often as stored, sorted ascending |
| BookingComparison.ControllerConflictIsRouteConflict | server/controllers/appointments.js:96-108 | a slot the controller finds taken is also held at the route and the index |
| BookingComparison.ClosedAppointmentBlocksOnlyTheRoute | server/routes/appointments.js:61-72 | a closed appointment blocks its key at the route and the index but not in the controller's check |
| BookingComparison.DeleteFreesSlotCancelDoesNot | server/routes/appointments.js:229 | deleting frees the key, while the controller's cancel keeps it held |
| BookingComparison.AvailableSlotPassesConflictCheck | server/controllers/appointments.js:423 | a slot the availability listing shows passes the controller's conflict check for that day |
| BookingComparison.SameDayOtherInstantEscapesConflictCheck | server/controllers/appointments.js:96-103 | an open appointment at another instant of the day hides the slot from the listing without blocking the exact-date check |
| Auth.BearerToken | server/middleware/auth.js:8-13 | a token exists exactly when the header starts with `Bearer ` followed by a non-space; the token is the text from there to the next space |
| Auth.Request.constructor | server/middleware/auth.js:4 | a request with its header and no user attached |
| Auth.Protect | server/middleware/auth.js:4-44 | no token 401; a token that fails verification 401; an unknown user 401; otherwise the user is attached and the request passes |
| Auth.Authorize | server/middleware/auth.js:47-66 | no user 401; passes exactly when the user's role name is among the arguments; otherwise 403 |
| Auth.DoctorOnlyAdmitsDoctors | server/routes/appointments.js:157 | `authorize('doctor')` admits exactly signed-in doctors |
| Auth.PrescriptionGuardRefusesEveryone | server/routes/prescriptions.js:15 | `authorize(['doctor'])` refuses every signed-in user with 403 |
| Auth.PrescriptionGuardAdmitsDoctors | server/routes/prescriptions.js:15-22 | the intended guard admits exactly signed-in doctors |
| BookingValidation.MongoIdPrefix | server/middleware/validateAppointment.js:9 | `isMongoId` accepts 22 hexadecimal digits after `0x` and 24 plain ones, and refuses 23 plain ones |
| BookingValidation.FieldErrors | server/middleware/validateAppointment.js:5-34 | each field is reported exactly when it is empty or fails its rule (`isMongoId` as validator defines it: hexadecimal, optionally `0x`/`0h`-prefixed, 24 characters); the time rule runs on the trimmed text |
| BookingValidation.ValidateBooking | server/middleware/validateAppointment.js:5-35 | fails exactly when a field is reported; an accepted time is the trimmed input and strictly valid; the symptoms are trimmed and escaped, and decode back |
| BookingValidation.PaddedTimeAccepted | server/middleware/validateAppointment.js:23-26 | a strict time padded with white space is accepted, as the time without the padding |
| BookingValidation.BlankSymptomsPass | server/middleware/validateAppointment.js:31-34 | white-space-only symptoms pass the chain and become the empty text |
| Prescriptions.NonEmpty | server/controllers/prescriptionController.js:15 | keeps exactly the non-empty lines, and all of them when none is empty |
| Prescriptions.NonEmptyAppend | server/controllers/prescriptionController.js:15 | filtering a concatenation filters each part, so order and repetitions are kept |
| Prescriptions.NonEmptySingle | server/controllers/prescriptionController.js:15 | one line survives the filter exactly when it is not empty |
| Prescriptions.TrimEach | server/controllers/prescriptionController.js:15 | each line trimmed, position by position |
| Prescriptions.TrimEachAppend | server/controllers/prescriptionController.js:15 | trimming each line of a concatenation trims each part |
| Prescriptions.TrimEachPieces | server/controllers/prescriptionController.js:15 | trimming separator-free pieces keeps them separator-free, and the trimmed lines are exactly the trimmed pieces |
| Prescriptions.CleanLines | server/controllers/prescriptionController.js:15-16 | every stored line is non-empty, trimmed and on one line |
| Prescriptions.CleanLinesMembers | server/controllers/prescriptionController.js:15-16 | the stored lines are exactly the non-empty trimmed pieces of the text |
| Prescriptions.CleanLinesConcat | server/controllers/prescriptionController.js:15-16 | a text cut at a newline cleans to the lines before it followed by the lines after it, in order and with repetitions |
| Prescriptions.CleanLinesOneLine | server/controllers/prescriptionController.js:15-16 | a text without a newline cleans to its trimmed form, or to nothing when that is empty |
| Prescriptions.CleanLinesRoundTrip | server/controllers/prescriptionController.js:15-16 | clean lines joined with newlines clean back to themselves |
| Prescriptions.CleanLinesIdempotent | server/controllers/prescriptionController.js:15-16 | cleaning the joined clean lines changes nothing |
| Prescriptions.CleanLinesWithoutBlanks | server/controllers/prescriptionController.js:15-16 | with no blank piece, the stored lines are the trimmed pieces one to one |
| Prescriptions.CreatePrescription | server/controllers/prescriptionController.js:8-34 | behind the intended doctor-only guard, which refuses non-doctors; a missing medicines or dosage text gives 500; otherwise 201 and one record with the cleaned lines is appended |
| Prescriptions.Or | server/controllers/prescriptionController.js:58-78 | a truthy text or the fallback |
| Prescriptions.MedicineItems | server/controllers/prescriptionController.js:67-70 | the placeholder item when there are no medicines, otherwise one item per medicine line |
| Prescriptions.MedicineItemsAsDirected | server/controllers/prescriptionController.js:67-69 | without a dosage text every medicine line is printed with `As directed` |
| Prescriptions.MedicineItemsPastLastDose | server/controllers/prescriptionController.js:67-69 | a medicine line past the last dosage line is printed with `undefined` |
| Prescriptions.ItemPairsLines | server/controllers/prescriptionController.js:67-70 | item i pairs the i-th trimmed medicine with the i-th trimmed dosage |
| Prescriptions.EmailMatchesStoredPrescription | server/controllers/prescriptionController.js:67-70 | with no blank lines and as many dosages as medicines, the e-mail lists exactly the stored pairs |
| Prescriptions.SendPrescriptionEmail | server/controllers/prescriptionController.js:39-105 | behind the intended doctor-only guard, which refuses non-doctors; no file 400; no recipient 400; delivery failure 500; otherwise 200, with every fallback of the body (`Patient`, `Doctor`, `Your Doctor`, `General Physician`, `Healthcare Clinic`, `N/A`, `Not specified`), the file name's default, and the uploaded bytes attached |

## Left out

- HTTP framing, JSON bodies and response messages are not modelled. Each handler returns
  its status code with the data or a reason.
- `populate(...)`: the referenced user documents are not joined in.
- ObjectId generation is modelled as a counter (`nextId`). A malformed id text becomes
  `IdText.NotObjectId`, whatever its shape.
- Time sources, token verification, ISO 8601 checking, moment's strict parse,
  `new Date(...)`, and express-validator's report for the controller are inputs, not
  computations.
- Concurrency is not modelled. Each handler runs atomically, so the race between the
  conflict check and the write, which the unique index settles, is not shown.
- Mongo's order for equal sort keys is not modelled. The listings are specified up to
  that order: sorted, and a permutation of the matching documents.
- `getAppointment`, and the controller's `getPatientAppointments` and
  `getDoctorAppointments` (sorted newest first), are not modelled. No route reaches them.
  The mounted listings are modelled.
- The `.toDate()` sanitizer of the validator chain, and non-string body values, are not
  modelled. Fields are text or absent.
- The `Prescription` schema's own validation, and its ES-module syntax, are not modelled.
  `server/models/Prescription.js` is not part of this model. `save()` is taken to succeed.
- The HTML markup of the prescription e-mail, and the transport in `sendEmail`, are not
  modelled. The e-mail is its recipient, subject, names, items and attachment.
  Delivery is the input `delivered`.
- DoctorAppointments: the `authorize('doctor')` guard in front of the handler is
  `Auth.DoctorOnly`, stated separately by `Auth.DoctorOnlyAdmitsDoctors`.
- UpdateStatus: the same holds for its guard.
- CreatePrescription, SendPrescriptionEmail: both are modelled behind the intended
  `authorize('doctor')` guard. The mounted `authorize(['doctor'])` refuses every user
  (see "## Findings"), so as mounted neither handler body is ever reached.
- BookAppointment: the duplicate-key catch (409) of `POST /` is not reached, because nothing
  runs between the pre-check and the insert. Under concurrency the unique index would
  answer there.
- Dates are wall-clock milliseconds of the server's local time zone. Every day is taken as
  24 hours. Across a daylight-saving change a local day is 23 or 25 hours long. This
  affects the day window of the availability query, the local midnight the controller
  books at, and `toDateString` in the reschedule's date comparison, and none of this is
  modelled.
- Any `catch` branch that only reports a thrown exception is not modelled, except where
  the model names the failure:
  - invalid ids;
  - the route's invalid date;
  - a prescription without medicines or dosage.

## Findings

| source | as written | input that shows it | evidently intended | confidence | as-written member | corrected member |
|---|---|---|---|---|---|---|
| server/routes/prescriptions.js:15 | `authorize(['doctor'])` passes one array to a rest parameter, so the allowed roles are `[['doctor']]` and `roles.includes('doctor')` is false | any signed-in doctor posting a prescription or sending one by e-mail gets 403 | `authorize('doctor')`: doctors pass, others get 403 | high, not executed | Auth.PrescriptionGuardRefusesEveryone | Auth.PrescriptionGuardAdmitsDoctors |
