/**
 * The appointment document: its fields, the trim setters and validators of the schema,
 * the status enumeration with its default, and the unique index on (doctor, date, time).
 */
module AppointmentSchema {

  import opened Wrappers
  import opened Text
  import opened Clock
  import opened Accounts

  type AppointmentId = nat

  /** A point in time, in milliseconds on the server's local time line. */
  type Instant = int

  const DayLength: int := 86_400_000

  /** The local calendar day an instant falls on. */
  function DayOf(t: Instant): int {
    t / DayLength
  }

  /** Local midnight at the start of a calendar day. */
  function StartOfDay(day: int): Instant {
    day * DayLength
  }

  /** The half-open day range `[startOf(day), startOf(day + 1))` holds exactly the instants of that day. */
  lemma DayRange(t: Instant, day: int)
    ensures StartOfDay(day) <= t < StartOfDay(day + 1) <==> DayOf(t) == day
    ensures DayOf(StartOfDay(day)) == day
  {
    var q, r := t / DayLength, t % DayLength;
    assert t == q * DayLength + r && 0 <= r < DayLength;
    if q < day {
      assert q * DayLength <= (day - 1) * DayLength;
    } else if q > day {
      assert (day + 1) * DayLength <= q * DayLength;
    }
  }

  /**
   * The status of an appointment. The schema admits the four named values; `Unlisted`
   * is any other text, which only an update that skips validation can store.
   */
  datatype Status = Pending | Confirmed | Cancelled | Completed | Unlisted(name: string)

  const StatusNames: seq<string> := ["pending", "confirmed", "cancelled", "completed"]

  function StatusName(s: Status): string {
    match s
    case Pending => "pending"
    case Confirmed => "confirmed"
    case Cancelled => "cancelled"
    case Completed => "completed"
    case Unlisted(name) => name
  }

  /** The status a text denotes: it prints back to the same text, and is outside the enumeration exactly for other texts. */
  function ParseStatus(name: string): (s: Status)
    ensures StatusName(s) == name
    ensures s.Unlisted? <==> name !in StatusNames
  {
    if name == "pending" then Pending
    else if name == "confirmed" then Confirmed
    else if name == "cancelled" then Cancelled
    else if name == "completed" then Completed
    else Unlisted(name)
  }

  /** `enum: ['pending', 'confirmed', 'cancelled', 'completed']`. */
  predicate InEnum(s: Status) {
    !s.Unlisted?
  }

  /**
   * A status as it comes out of `ParseStatus`: an `Unlisted` value never carries one of the
   * four enumerated texts, so every stored text has exactly one reading.
   */
  predicate IsParsed(s: Status) {
    s.Unlisted? ==> s.name !in StatusNames
  }

  /** A status that occupies its slot. */
  predicate IsActive(s: Status) {
    s == Pending || s == Confirmed
  }

  datatype Appointment = Appointment(
    id: AppointmentId,
    doctor: UserId,
    patient: UserId,
    date: Instant,
    time: string,
    symptoms: string,
    status: Status,
    notes: string)

  /** The schema paths a validation error can name. */
  datatype Path = DoctorPath | PatientPath | DatePath | TimePath | SymptomsPath | StatusPath

  /** The fields handed to `Appointment.create`; `None` is a field left undefined. */
  datatype Draft = Draft(
    doctor: Option<UserId>,
    patient: Option<UserId>,
    date: Option<Instant>,
    time: Option<string>,
    symptoms: Option<string>,
    status: Option<string>,
    notes: Option<string>)

  /** A required string fails on undefined and on the empty string (the trim setter has run). */
  predicate MissingText(s: Option<string>) {
    s.None? || Trim(s.value) == ""
  }

  /** The validation errors of a draft, after the `trim` setters. */
  function DraftViolations(d: Draft): set<Path> {
    (if d.doctor.None? then {DoctorPath} else {})
    + (if d.patient.None? then {PatientPath} else {})
    + (if d.date.None? then {DatePath} else {})
    + (if MissingText(d.time) || !IsSchemaTime(Trim(d.time.value)) then {TimePath} else {})
    + (if MissingText(d.symptoms) then {SymptomsPath} else {})
    + (if d.status.Some? && !InEnum(ParseStatus(d.status.value)) then {StatusPath} else {})
  }

  /** What the schema guarantees of every stored document, whatever its status. */
  predicate WellFormed(a: Appointment) {
    IsSchemaTime(a.time) && a.symptoms != "" && IsTrimmed(a.symptoms) && IsTrimmed(a.notes) && IsParsed(a.status)
  }

  /**
   * The document `Appointment.create` builds from a draft: it exists exactly when the draft
   * violates nothing, stores the trimmed texts, and takes `pending` and `''` as defaults.
   */
  function Build(id: AppointmentId, d: Draft): (r: Result<Appointment, set<Path>>)
    ensures r.Success? <==> DraftViolations(d) == {}
    ensures r.Failure? ==> r.error == DraftViolations(d)
    ensures r.Success? ==>
      && WellFormed(r.value) && InEnum(r.value.status)
      && r.value.id == id
      && Some(r.value.doctor) == d.doctor && Some(r.value.patient) == d.patient
      && Some(r.value.date) == d.date
      && r.value.time == Trim(d.time.value) && r.value.symptoms == Trim(d.symptoms.value)
      && r.value.status == (if d.status.Some? then ParseStatus(d.status.value) else Pending)
      && r.value.notes == (if d.notes.Some? then Trim(d.notes.value) else "")
  {
    var v := DraftViolations(d);
    if v != {} then Failure(v)
    else
      assert DoctorPath !in v && PatientPath !in v && DatePath !in v;
      assert TimePath !in v && SymptomsPath !in v && StatusPath !in v;
      Success(Appointment(
        id, d.doctor.value, d.patient.value, d.date.value,
        Trim(d.time.value), Trim(d.symptoms.value),
        if d.status.Some? then ParseStatus(d.status.value) else Pending,
        if d.notes.Some? then Trim(d.notes.value) else ""))
  }

  /** The `trim` setters, applied when a loaded document's texts are assigned. */
  function Normalize(a: Appointment): Appointment {
    a.(time := Trim(a.time), symptoms := Trim(a.symptoms), notes := Trim(a.notes))
  }

  /**
   * The validation errors of a loaded document on `save()`; the `match` rule skips the
   * empty text, which the `required` rule reports.
   */
  function DocumentViolations(a: Appointment): set<Path> {
    (if a.time == "" || !IsSchemaTime(a.time) then {TimePath} else {})
    + (if a.symptoms == "" then {SymptomsPath} else {})
    + (if a.status.Unlisted? then {StatusPath} else {})
  }

  /** A document whose texts are trimmed and that violates no rule is well formed, with a status in the enumeration. */
  lemma SavedIsWellFormed(a: Appointment)
    requires DocumentViolations(a) == {} && IsTrimmed(a.symptoms) && IsTrimmed(a.notes)
    ensures WellFormed(a) && InEnum(a.status)
  {
    assert TimePath !in DocumentViolations(a) && SymptomsPath !in DocumentViolations(a);
  }

  /** A strictly valid time is stored as it is: trimming keeps it and the schema's rule accepts it. */
  lemma StrictTimeIsStoredAsIs(t: string)
    requires IsValidTimeFormat(t)
    ensures Trim(t) == t && IsSchemaTime(t)
  {
    SchemaTimeIsTrimmed(t);
    TrimmedIsFixed(t);
  }

  /** A stored document is unchanged by the setters and fails validation only for an unlisted status. */
  lemma WellFormedIsNormal(a: Appointment)
    requires WellFormed(a)
    ensures Normalize(a) == a
    ensures DocumentViolations(a) == if a.status.Unlisted? then {StatusPath} else {}
  {
    SchemaTimeIsTrimmed(a.time);
    TrimmedIsFixed(a.time);
    TrimmedIsFixed(a.symptoms);
    TrimmedIsFixed(a.notes);
    WellFormedViolations(a);
  }

  lemma WellFormedViolations(a: Appointment)
    requires WellFormed(a)
    ensures DocumentViolations(a) == if a.status.Unlisted? then {StatusPath} else {}
  {
    SchemaTimeIsTrimmed(a.time);
  }

  lemma SchemaTimeIsTrimmed(t: string)
    requires IsSchemaTime(t)
    ensures t != "" && IsTrimmed(t)
  {
    assert IsDigit(t[0]) && IsDigit(t[|t| - 1]);
  }

  /** The key of the unique index `{ doctor: 1, date: 1, time: 1 }`. */
  function SlotKey(a: Appointment): (UserId, Instant, string) {
    (a.doctor, a.date, a.time)
  }

  /** Some stored appointment, of any status, holds the key. */
  predicate KeyHeld(rs: seq<Appointment>, key: (UserId, Instant, string)) {
    exists i :: 0 <= i < |rs| && SlotKey(rs[i]) == key
  }

  /** The unique index: no two documents share (doctor, date, time), whatever their status. */
  ghost predicate SlotsUnique(rs: seq<Appointment>) {
    forall i, j :: 0 <= i < j < |rs| ==> SlotKey(rs[i]) != SlotKey(rs[j])
  }

  /** The booking core's correctness property: no slot holds two active appointments. */
  ghost predicate NoActiveDoubleBooking(rs: seq<Appointment>) {
    forall i, j :: 0 <= i < j < |rs| && IsActive(rs[i].status) && IsActive(rs[j].status) ==>
      SlotKey(rs[i]) != SlotKey(rs[j])
  }

  /** The unique index implies that no slot is double-booked. */
  lemma UniqueIndexPreventsDoubleBooking(rs: seq<Appointment>)
    requires SlotsUnique(rs)
    ensures NoActiveDoubleBooking(rs)
  {
  }

  /**
   * The unique index is blind to status: while a cancelled or completed appointment holds
   * a key, no second appointment with that key can be stored, active or not.
   */
  lemma UniqueIndexCountsClosedAppointments(rs: seq<Appointment>, i: nat, a: Appointment)
    requires i < |rs| && !IsActive(rs[i].status) && SlotKey(a) == SlotKey(rs[i])
    ensures !SlotsUnique(rs + [a])
  {
    assert (rs + [a])[i] == rs[i] && (rs + [a])[|rs|] == a;
  }
}
