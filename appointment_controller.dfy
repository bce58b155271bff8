/**
 * The appointment controller: booking with its manual checks, the status update by the
 * doctor, cancellation, the free slots of a doctor's day, and the patient's reschedule.
 * Each handler runs its checks in the order the controller does and ends with one write
 * through the store, whose validation and unique index may still refuse it.
 */
module AppointmentController {

  import opened Wrappers
  import opened Text
  import opened Clock
  import opened Accounts
  import opened AppointmentSchema
  import opened AppointmentStore
  import opened Http

  /** The status code the controller sends for each refusal. */
  function Code(reason: Reason): (code: nat)
    ensures code in {400, 401, 404, 500}
    ensures code == 400 <==> !(reason.NotAuthorized? || reason.AppointmentNotFound? || reason.ServerError?)
  {
    match reason
    case NotAuthorized => 401
    case AppointmentNotFound => 404
    case ServerError => 500
    case _ => 400
  }

  function Refuse<T>(reason: Reason): Reply<T> {
    Err(Code(reason), reason)
  }

  /**
   * A `YYYY-MM-DD` text as moment's strict parse reads it: absent or empty, not a calendar
   * date, or the local day with that number.
   */
  datatype DayField = NoDay | BadDay | OnDay(day: int)

  /** The body of a booking request; an absent or empty doctor id is `None`. */
  datatype BookingRequest = BookingRequest(
    doctorId: Option<IdText>,
    date: DayField,
    time: Option<string>,
    symptoms: Option<string>)

  /** `!doctorId || !date || !time || !symptoms`. */
  predicate MissingField(req: BookingRequest) {
    req.doctorId.None? || req.date.NoDay? || !Truthy(req.time) || !Truthy(req.symptoms)
  }

  /** A pending or confirmed appointment of `doctor` at exactly this instant and time. */
  predicate Occupies(a: Appointment, doctor: UserId, date: Instant, time: string) {
    a.doctor == doctor && a.date == date && a.time == time && IsActive(a.status)
  }

  /** The controller's conflict query: some document other than `except` occupies the slot. */
  predicate ActiveSlotTaken(rs: seq<Appointment>, doctor: UserId, date: Instant, time: string, except: Option<AppointmentId>) {
    exists i :: 0 <= i < |rs| && Occupies(rs[i], doctor, date, time) && (except.None? || rs[i].id != except.value)
  }

  /**
   * The checks `createAppointment` makes before it writes, in its order; the first that
   * fails is the reason for refusing. A request passes exactly when every check passes.
   */
  function BookingRejection(rs: seq<Appointment>, users: Directory, errs: set<BodyField>, req: BookingRequest, today: int): (r: Option<Reason>)
    ensures r.None? <==>
      && errs == {} && !MissingField(req) && IsValidTimeFormat(req.time.value)
      && req.doctorId.value.ObjectId? && IsDoctor(users, req.doctorId.value.value)
      && req.date.OnDay? && today <= req.date.day
      && !ActiveSlotTaken(rs, req.doctorId.value.value, StartOfDay(req.date.day), req.time.value, None)
    ensures errs != {} ==> r == Some(ValidationFailed(errs))
    ensures r == Some(PastDate) ==> req.date.OnDay? && req.date.day < today
    ensures r == Some(SlotTaken) ==>
      && !MissingField(req) && req.doctorId.value.ObjectId? && req.date.OnDay?
      && ActiveSlotTaken(rs, req.doctorId.value.value, StartOfDay(req.date.day), req.time.value, None)
  {
    if errs != {} then Some(ValidationFailed(errs))
    else if MissingField(req) then Some(MissingFields)
    else if !IsValidTimeFormat(req.time.value) then Some(BadTimeFormat)
    else if req.doctorId.value.NotObjectId? then Some(BadIdFormat)
    else if !IsDoctor(users, req.doctorId.value.value) then Some(DoctorNotFound)
    else if req.date.BadDay? then Some(BadDateFormat)
    else if req.date.day < today then Some(PastDate)
    else if ActiveSlotTaken(rs, req.doctorId.value.value, StartOfDay(req.date.day), req.time.value, None) then Some(SlotTaken)
    else None
  }

  /**
   * `createAppointment` for the signed-in patient `user`, on the local day `today`: refuses
   * with the first failing check; otherwise creates a pending appointment at the start of
   * the requested day. The schema still refuses symptoms that trim to nothing (400), and the
   * unique index refuses a slot a closed appointment holds, which the controller reports as
   * a server error (500).
   */
  method CreateAppointment(store: Store, users: Directory, user: UserId, errs: set<BodyField>, req: BookingRequest, today: int)
    returns (r: Reply<Appointment>)
    requires store.Valid()
    modifies store
    ensures store.Valid()
    ensures r.Err? ==> store.records == old(store.records)
    ensures BookingRejection(old(store.records), users, errs, req, today).Some? ==>
      r == Refuse(BookingRejection(old(store.records), users, errs, req, today).value)
    ensures BookingRejection(old(store.records), users, errs, req, today).None? ==>
      var key := (req.doctorId.value.value, StartOfDay(req.date.day), req.time.value);
      if Trim(req.symptoms.value) == "" then r == Refuse(SchemaRejected({SymptomsPath}))
      else if KeyHeld(old(store.records), key) then r == Refuse(ServerError)
      else
        && r == Ok(201, Appointment(old(store.nextId), key.0, user, key.1, key.2, Trim(req.symptoms.value), Pending, ""))
        && store.records == old(store.records) + [r.data]
  {
    var rejection := BookingRejection(store.records, users, errs, req, today);
    if rejection.Some? {
      return Refuse(rejection.value);
    }
    var doctor, day, time := req.doctorId.value.value, req.date.day, req.time.value;
    StrictTimeIsStoredAsIs(time);
    var draft := Draft(Some(doctor), Some(user), Some(StartOfDay(day)), Some(time), Some(req.symptoms.value), Some("pending"), None);
    assert DraftViolations(draft) == if Trim(req.symptoms.value) == "" then {SymptomsPath} else {};
    var built := Build(store.nextId, draft);
    if built.Failure? {
      return Refuse(SchemaRejected(built.error));
    }
    var created := store.Create(built.value);
    if created.Failure? {
      return Refuse(ServerError);
    }
    r := Ok(201, created.value);
  }

  /**
   * A closed appointment never blocks the controller's check, yet it still holds its key in
   * the unique index: booking its slot again passes every manual check and then fails on
   * the index.
   */
  lemma ClosedSlotPassesCheckButHitsIndex(rs: seq<Appointment>, users: Directory, req: BookingRequest, today: int, i: nat)
    requires SlotsUnique(rs)
    requires !MissingField(req) && IsValidTimeFormat(req.time.value)
    requires req.doctorId.value.ObjectId? && IsDoctor(users, req.doctorId.value.value)
    requires req.date.OnDay? && today <= req.date.day
    requires i < |rs| && !IsActive(rs[i].status)
    requires SlotKey(rs[i]) == (req.doctorId.value.value, StartOfDay(req.date.day), req.time.value)
    ensures BookingRejection(rs, users, {}, req, today).None?
    ensures KeyHeld(rs, SlotKey(rs[i]))
  {
    var doctor, date, time := req.doctorId.value.value, StartOfDay(req.date.day), req.time.value;
    forall j | 0 <= j < |rs|
      ensures !Occupies(rs[j], doctor, date, time)
    {
      if j < i {
        assert SlotKey(rs[j]) != SlotKey(rs[i]);
      } else if j > i {
        assert SlotKey(rs[i]) != SlotKey(rs[j]);
      }
    }
  }

  /**
   * `updateAppointmentStatus` by the signed-in `user`: the status must be given, the id
   * well-formed and found, the user the appointment's doctor and the status one of the
   * four; then only the status changes. Any status may follow any other.
   */
  method UpdateAppointmentStatus(store: Store, user: UserId, id: IdText, status: Option<string>)
    returns (r: Reply<Appointment>)
    requires store.Valid()
    modifies store
    ensures store.Valid() && store.nextId == old(store.nextId)
    ensures r.Err? ==> store.records == old(store.records)
    ensures !Truthy(status) ==> r == Refuse(NoStatus)
    ensures Truthy(status) && id.NotObjectId? ==> r == Refuse(BadIdFormat)
    ensures Truthy(status) && id.ObjectId? && old(store.FindById(id.value)).None? ==> r == Refuse(AppointmentNotFound)
    ensures Truthy(status) && id.ObjectId? && old(store.FindById(id.value)).Some? ==>
      var a := old(store.FindById(id.value)).value;
      if a.doctor != user then r == Refuse(NotAuthorized)
      else if !InEnum(ParseStatus(status.value)) then r == Refuse(BadStatus)
      else
        && r == Ok(200, a.(status := ParseStatus(status.value)))
        && store.records == old(store.records)[IndexOf(old(store.records), id.value).value := r.data]
  {
    if !Truthy(status) {
      return Refuse(NoStatus);
    }
    if id.NotObjectId? {
      return Refuse(BadIdFormat);
    }
    var found := store.FindById(id.value);
    if found.None? {
      return Refuse(AppointmentNotFound);
    }
    var a := found.value;
    if a.doctor != user {
      return Refuse(NotAuthorized);
    }
    var s := ParseStatus(status.value);
    if !InEnum(s) {
      return Refuse(BadStatus);
    }
    var updated := a.(status := s);
    ghost var k := IndexOf(store.records, id.value).value;
    assert a == store.records[k];
    WellFormedViolations(updated);
    SchemaTimeIsTrimmed(updated.time);
    OwnKeyNotHeldByOther(store.records, store.nextId, k);
    assert SlotKey(updated) == SlotKey(store.records[k]);
    var saved := store.Save(updated);
    r := Ok(200, saved.value);
  }

  /**
   * `cancelAppointment` by the signed-in `user`: the id must be well-formed and found, the
   * user its patient or its doctor, and the appointment neither cancelled nor completed;
   * then its status becomes `cancelled` and the document stays in the collection.
   */
  method CancelAppointment(store: Store, user: UserId, id: IdText) returns (r: Reply<()>)
    requires store.Valid()
    modifies store
    ensures store.Valid() && store.nextId == old(store.nextId)
    ensures r.Err? ==> store.records == old(store.records)
    ensures id.NotObjectId? ==> r == Refuse(BadIdFormat)
    ensures id.ObjectId? && old(store.FindById(id.value)).None? ==> r == Refuse(AppointmentNotFound)
    ensures id.ObjectId? && old(store.FindById(id.value)).Some? ==>
      var a := old(store.FindById(id.value)).value;
      if a.patient != user && a.doctor != user then r == Refuse(NotAuthorized)
      else if a.status == Cancelled || a.status == Completed then r == Refuse(AlreadyClosed)
      else
        && r == Ok(200, ())
        && store.records == old(store.records)[IndexOf(old(store.records), id.value).value := a.(status := Cancelled)]
  {
    if id.NotObjectId? {
      return Refuse(BadIdFormat);
    }
    var found := store.FindById(id.value);
    if found.None? {
      return Refuse(AppointmentNotFound);
    }
    var a := found.value;
    if a.patient != user && a.doctor != user {
      return Refuse(NotAuthorized);
    }
    if a.status == Cancelled || a.status == Completed {
      return Refuse(AlreadyClosed);
    }
    var updated := a.(status := Cancelled);
    ghost var k := IndexOf(store.records, id.value).value;
    assert a == store.records[k];
    WellFormedViolations(updated);
    SchemaTimeIsTrimmed(updated.time);
    OwnKeyNotHeldByOther(store.records, store.nextId, k);
    assert SlotKey(updated) == SlotKey(store.records[k]);
    var saved := store.Save(updated);
    r := Ok(200, ());
  }

  /** The two nested loops that list a day's slots, from 09:00 up to, not including, 17:00. */
  method AllSlots() returns (slots: seq<string>)
    ensures slots == SlotTemplate()
  {
    slots := [];
    var hour := 9;
    while hour < 17
      invariant 9 <= hour <= 17
      invariant slots == SlotTemplate()[..2 * (hour - 9)]
    {
      var minute := 0;
      while minute < 60
        invariant minute == 0 || minute == 30 || minute == 60
        invariant slots == SlotTemplate()[..2 * (hour - 9) + minute / 30]
      {
        SlotTemplateStep(hour, minute);
        slots := slots + [ClockTime(hour, minute)];
        minute := minute + 30;
      }
      hour := hour + 1;
    }
  }

  /** A pending or confirmed appointment of `doctor` whose date falls on the local day `day`. */
  predicate BookedOn(a: Appointment, doctor: UserId, day: int) {
    a.doctor == doctor && DayOf(a.date) == day && IsActive(a.status)
  }

  /**
   * The times of the availability query: `doctor`, date from the start of the day up to the
   * start of the next, pending or confirmed. They are exactly the times booked that day.
   */
  function BookedTimes(rs: seq<Appointment>, doctor: UserId, day: int): (r: seq<string>)
    ensures forall t :: t in r <==> exists a :: a in rs && BookedOn(a, doctor, day) && a.time == t
  {
    if rs == [] then []
    else
      var a := rs[0];
      var rest := BookedTimes(rs[1..], doctor, day);
      DayRange(a.date, day);
      assert forall b :: b in rs <==> b == a || b in rs[1..];
      if a.doctor == doctor && StartOfDay(day) <= a.date < StartOfDay(day + 1) && IsActive(a.status)
      then [a.time] + rest
      else rest
  }

  /** `allSlots.filter(slot => !bookedSlots.includes(slot))`: keeps the slots not booked. */
  function Without(xs: seq<string>, booked: seq<string>): (r: seq<string>)
    ensures forall s :: s in r <==> s in xs && s !in booked
  {
    if xs == [] then []
    else
      var rest := Without(xs[1..], booked);
      assert forall s :: s in xs <==> s == xs[0] || s in xs[1..];
      if xs[0] in booked then rest else [xs[0]] + rest
  }

  /** Filtering keeps the order of what remains. */
  lemma {:induction false} WithoutKeepsOrder(xs: seq<string>, booked: seq<string>)
    requires Ascending(xs)
    ensures Ascending(Without(xs, booked))
  {
    if xs != [] {
      AscendingTail(xs);
      WithoutKeepsOrder(xs[1..], booked);
      var rest := Without(xs[1..], booked);
      if xs[0] !in booked {
        forall s | s in rest
          ensures TimeRank(xs[0]) < TimeRank(s)
        {
          var j :| 0 <= j < |xs[1..]| && xs[1..][j] == s;
          assert s == xs[j + 1];
        }
        AscendingCons(xs[0], rest);
      }
    }
  }

  /**
   * `getAvailableSlots` for the doctor id in the path and the `date` query: refuses a missing
   * date, a malformed id, an unknown doctor and an unparsable date, in that order; otherwise
   * answers the template slots, ascending, that no pending or confirmed appointment of the
   * doctor holds on that day.
   */
  method GetAvailableSlots(store: Store, users: Directory, doctorId: IdText, date: DayField)
    returns (r: Reply<seq<string>>)
    ensures date.NoDay? ==> r == Refuse(MissingFields)
    ensures !date.NoDay? && doctorId.NotObjectId? ==> r == Refuse(BadIdFormat)
    ensures !date.NoDay? && doctorId.ObjectId? && !IsDoctor(users, doctorId.value) ==> r == Refuse(DoctorNotFound)
    ensures date.BadDay? && doctorId.ObjectId? && IsDoctor(users, doctorId.value) ==> r == Refuse(BadDateFormat)
    ensures r.Ok? <==> date.OnDay? && doctorId.ObjectId? && IsDoctor(users, doctorId.value)
    ensures r.Ok? ==>
      && r.code == 200 && Ascending(r.data)
      && forall s :: s in r.data <==>
           s in SlotTemplate() && !exists a :: a in store.records && BookedOn(a, doctorId.value, date.day) && a.time == s
  {
    if date.NoDay? {
      return Refuse(MissingFields);
    }
    if doctorId.NotObjectId? {
      return Refuse(BadIdFormat);
    }
    if !IsDoctor(users, doctorId.value) {
      return Refuse(DoctorNotFound);
    }
    if date.BadDay? {
      return Refuse(BadDateFormat);
    }
    var booked := BookedTimes(store.records, doctorId.value, date.day);
    var all := AllSlots();
    SlotTemplateAscending();
    WithoutKeepsOrder(all, booked);
    r := Ok(200, Without(all, booked));
  }

  /** The new date of a reschedule: absent, not a calendar date, or the local day with that number. */
  datatype DateUpdate = KeepDate | BadNewDate | NewDay(day: int)

  function NewDate(a: Appointment, date: DateUpdate): Instant {
    if date.NewDay? then StartOfDay(date.day) else a.date
  }

  function NewTime(a: Appointment, time: Option<string>): string {
    if time.Some? then time.value else a.time
  }

  /** `isTimeChanging || isDateChanging`: a new time text, or a new date on another local day. */
  predicate SlotChanging(a: Appointment, date: DateUpdate, time: Option<string>) {
    || (time.Some? && time.value != a.time)
    || (date.NewDay? && date.day != DayOf(a.date))
  }

  /** The document after the given fields are assigned. */
  function Edited(a: Appointment, date: DateUpdate, time: Option<string>, symptoms: Option<string>): Appointment {
    a.(date := NewDate(a, date), time := NewTime(a, time),
       symptoms := if symptoms.Some? then symptoms.value else a.symptoms)
  }

  /**
   * The checks `updateAppointment` makes on the loaded appointment `a`, in its order: only
   * its patient may reschedule, only while it is pending, and the conflict check, made only
   * when the slot changes, ignores the appointment itself.
   */
  function EditRejection(rs: seq<Appointment>, user: UserId, a: Appointment, date: DateUpdate, time: Option<string>): (r: Option<Reason>)
    ensures r.None? <==>
      && a.patient == user && a.status == Pending && !date.BadNewDate?
      && (time.Some? ==> IsValidTimeFormat(time.value))
      && (SlotChanging(a, date, time) ==> !ActiveSlotTaken(rs, a.doctor, NewDate(a, date), NewTime(a, time), Some(a.id)))
    ensures r == Some(SlotTaken) ==>
      SlotChanging(a, date, time) && ActiveSlotTaken(rs, a.doctor, NewDate(a, date), NewTime(a, time), Some(a.id))
  {
    if a.patient != user then Some(NotAuthorized)
    else if a.status != Pending then Some(NotPending)
    else if date.BadNewDate? then Some(BadDateFormat)
    else if time.Some? && !IsValidTimeFormat(time.value) then Some(BadTimeFormat)
    else if SlotChanging(a, date, time) && ActiveSlotTaken(rs, a.doctor, NewDate(a, date), NewTime(a, time), Some(a.id)) then Some(SlotTaken)
    else None
  }

  /**
   * `updateAppointment` by the signed-in `user`: refuses on validator errors, a malformed or
   * unknown id, or the first failing check of `EditRejection`; otherwise assigns the given
   * fields and saves, which the schema (400) or the unique index (500) may still refuse.
   */
  method UpdateAppointment(store: Store, user: UserId, id: IdText, errs: set<BodyField>,
                           date: DateUpdate, time: Option<string>, symptoms: Option<string>)
    returns (r: Reply<Appointment>)
    requires store.Valid()
    modifies store
    ensures store.Valid() && store.nextId == old(store.nextId)
    ensures r.Err? ==> store.records == old(store.records)
    ensures errs != {} ==> r == Refuse(ValidationFailed(errs))
    ensures errs == {} && id.NotObjectId? ==> r == Refuse(BadIdFormat)
    ensures errs == {} && id.ObjectId? && old(store.FindById(id.value)).None? ==> r == Refuse(AppointmentNotFound)
    ensures errs == {} && id.ObjectId? && old(store.FindById(id.value)).Some? ==>
      var a := old(store.FindById(id.value)).value;
      var e := Normalize(Edited(a, date, time, symptoms));
      if EditRejection(old(store.records), user, a, date, time).Some? then
        r == Refuse(EditRejection(old(store.records), user, a, date, time).value)
      else if DocumentViolations(e) != {} then r == Refuse(SchemaRejected(DocumentViolations(e)))
      else if KeyHeldByOther(old(store.records), SlotKey(e), a.id) then r == Refuse(ServerError)
      else
        && r == Ok(200, e)
        && store.records == old(store.records)[IndexOf(old(store.records), id.value).value := e]
  {
    if errs != {} {
      return Refuse(ValidationFailed(errs));
    }
    if id.NotObjectId? {
      return Refuse(BadIdFormat);
    }
    var found := store.FindById(id.value);
    if found.None? {
      return Refuse(AppointmentNotFound);
    }
    var a := found.value;
    var rejection := EditRejection(store.records, user, a, date, time);
    if rejection.Some? {
      return Refuse(rejection.value);
    }
    var saved := store.Save(Normalize(Edited(a, date, time, symptoms)));
    match saved
    case Failure(Invalid(paths)) =>
      r := Refuse(SchemaRejected(paths));
    case Failure(DuplicateKey) =>
      r := Refuse(ServerError);
    case Success(e) =>
      r := Ok(200, e);
  }

  /**
   * Rescheduling a stored appointment to the slot it already holds is never refused as
   * taken: the unique index leaves that key to the appointment alone, and the `$ne` on its
   * own id excludes it from the query.
   */
  lemma OwnSlotNeverConflicts(rs: seq<Appointment>, nextId: AppointmentId, a: Appointment, date: DateUpdate, time: Option<string>)
    requires ValidRecords(rs, nextId) && a in rs
    requires NewDate(a, date) == a.date && NewTime(a, time) == a.time
    ensures !ActiveSlotTaken(rs, a.doctor, NewDate(a, date), NewTime(a, time), Some(a.id))
  {
    var k :| 0 <= k < |rs| && rs[k] == a;
    forall i | 0 <= i < |rs| && Occupies(rs[i], a.doctor, a.date, a.time)
      ensures rs[i].id == a.id
    {
      assert SlotKey(rs[i]) == SlotKey(rs[k]);
    }
  }
}
