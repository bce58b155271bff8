/**
 * The appointment routes the server mounts: booking whose pre-check and unique index both
 * ignore the status, the doctor's status update through `findOneAndUpdate`, the
 * participant's hard delete, and the listings ordered by date and time.
 */
module AppointmentRoutes {

  import opened Wrappers
  import opened Text
  import opened Accounts
  import opened AppointmentSchema
  import opened AppointmentStore
  import opened Http

  /** The status code these routes send for each refusal; everything unexpected is a 500. */
  function Code(reason: Reason): (code: nat)
    ensures code in {400, 403, 404, 409, 500}
    ensures code == 409 <==> reason.SlotTaken?
    ensures code == 404 <==> reason.DoctorNotFound? || reason.AppointmentNotFound?
  {
    match reason
    case ValidationFailed(_) => 400
    case NotAuthorized => 403
    case DoctorNotFound => 404
    case AppointmentNotFound => 404
    case SlotTaken => 409
    case _ => 500
  }

  function Refuse<T>(reason: Reason): Reply<T> {
    Err(Code(reason), reason)
  }

  /** What `new Date(date)` gives: an invalid date, or an instant. */
  datatype RouteDate = InvalidDate | At(instant: Instant)

  /**
   * The body of a booking request. An absent or empty doctor id or date is `None`; time and
   * symptoms are the raw texts.
   */
  datatype RouteBooking = RouteBooking(
    doctorId: Option<IdText>,
    date: Option<RouteDate>,
    time: Option<string>,
    symptoms: Option<string>)

  /** The fields `check(field).not().isEmpty()` reports: absent, or the empty text. */
  function EmptyFields(req: RouteBooking): (r: set<BodyField>)
    ensures r <= {DoctorIdField, DateField, TimeField, SymptomsField}
    ensures r == {} <==> req.doctorId.Some? && req.date.Some? && Truthy(req.time) && Truthy(req.symptoms)
  {
    (if req.doctorId.None? then {DoctorIdField} else {})
    + (if req.date.None? then {DateField} else {})
    + (if !Truthy(req.time) then {TimeField} else {})
    + (if !Truthy(req.symptoms) then {SymptomsField} else {})
  }

  /** The request reaches the pre-check: fields present, a well-formed id of a doctor, a valid date. */
  predicate ReachesConflictCheck(users: Directory, req: RouteBooking) {
    && EmptyFields(req) == {}
    && req.doctorId.value.ObjectId? && IsDoctor(users, req.doctorId.value.value)
    && req.date.value.At?
  }

  /**
   * The key the document would be stored under, after the schema's `trim` setter. It is
   * also the key the pre-check looks up: Mongoose casts a query filter through the path's
   * setters, so the looked-up time is trimmed too.
   */
  function StoredKey(req: RouteBooking): (UserId, Instant, string)
    requires req.doctorId.Some? && req.doctorId.value.ObjectId?
    requires req.date.Some? && req.date.value.At? && req.time.Some?
  {
    (req.doctorId.value.value, req.date.value.instant, Trim(req.time.value))
  }

  /**
   * The checks of `POST /` before it writes, in its order: the empty-field rules, the
   * doctor lookup (a malformed id throws, so 500), the date cast (an invalid date throws),
   * and the pre-check, which finds a document of any status holding the trimmed slot.
   */
  function RouteRejection(rs: seq<Appointment>, users: Directory, req: RouteBooking): (r: Option<Reason>)
    ensures r.None? <==> ReachesConflictCheck(users, req) && !KeyHeld(rs, StoredKey(req))
    ensures EmptyFields(req) != {} ==> r == Some(ValidationFailed(EmptyFields(req)))
    ensures r == Some(DoctorNotFound) <==>
      EmptyFields(req) == {} && req.doctorId.value.ObjectId? && !IsDoctor(users, req.doctorId.value.value)
    ensures r == Some(SlotTaken) <==> ReachesConflictCheck(users, req) && KeyHeld(rs, StoredKey(req))
  {
    if EmptyFields(req) != {} then Some(ValidationFailed(EmptyFields(req)))
    else if req.doctorId.value.NotObjectId? then Some(ServerError)
    else if !IsDoctor(users, req.doctorId.value.value) then Some(DoctorNotFound)
    else if req.date.value.InvalidDate? then Some(ServerError)
    else if KeyHeld(rs, StoredKey(req)) then Some(SlotTaken)
    else None
  }

  /** `Appointment.create({ doctor, patient, date, time, symptoms })`: status and notes take their defaults. */
  function RouteDraft(user: UserId, req: RouteBooking): Draft
    requires req.doctorId.Some? && req.doctorId.value.ObjectId? && req.date.Some? && req.date.value.At?
  {
    Draft(Some(req.doctorId.value.value), Some(user), Some(req.date.value.instant), req.time, req.symptoms, None, None)
  }

  /** Every stored time is trimmed, so a key the pre-check finds is its own trimmed form. */
  lemma HeldTimeIsTrimmed(rs: seq<Appointment>, nextId: AppointmentId, key: (UserId, Instant, string))
    requires ValidRecords(rs, nextId) && KeyHeld(rs, key)
    ensures Trim(key.2) == key.2
  {
    var i :| 0 <= i < |rs| && SlotKey(rs[i]) == key;
    assert WellFormed(rs[i]);
    SchemaTimeIsTrimmed(rs[i].time);
    TrimmedIsFixed(rs[i].time);
  }

  /**
   * A held time padded with white space is caught by the pre-check: the filter's time is
   * trimmed before the lookup, so the request is refused as taken before anything is built.
   */
  lemma PaddedTimeCaughtByPrecheck(rs: seq<Appointment>, nextId: AppointmentId, users: Directory, req: RouteBooking,
                                   pad1: string, t: string, pad2: string)
    requires ValidRecords(rs, nextId) && ReachesConflictCheck(users, req)
    requires AllWhitespace(pad1) && AllWhitespace(pad2) && req.time.value == pad1 + t + pad2
    requires KeyHeld(rs, (req.doctorId.value.value, req.date.value.instant, t))
    ensures RouteRejection(rs, users, req) == Some(SlotTaken)
  {
    HeldTimeIsTrimmed(rs, nextId, (req.doctorId.value.value, req.date.value.instant, t));
    TrimOfPadded(pad1, t, pad2);
  }

  /**
   * `POST /` for the signed-in `user`: refuses with the first failing check, the pre-check
   * included; a draft the schema rejects is a 500; otherwise one pending appointment is
   * appended for the user with the given doctor, date, trimmed time and trimmed symptoms.
   * A request with every field filled and a known doctor and valid date is refused as
   * taken exactly when some appointment, whatever its status, holds the trimmed slot. The
   * duplicate-key catch (409) is not reached here: with nothing running in between, the
   * pre-check already refused every key the index would.
   */
  method BookAppointment(store: Store, users: Directory, user: UserId, req: RouteBooking)
    returns (r: Reply<Appointment>)
    requires store.Valid()
    modifies store
    ensures store.Valid()
    ensures r.Err? ==> store.records == old(store.records)
    ensures RouteRejection(old(store.records), users, req).Some? ==>
      r == Refuse(RouteRejection(old(store.records), users, req).value)
    ensures RouteRejection(old(store.records), users, req).None? ==>
      if DraftViolations(RouteDraft(user, req)) != {} then r == Refuse(ServerError)
      else
        && r == Ok(201, Appointment(old(store.nextId), req.doctorId.value.value, user, req.date.value.instant,
                                    Trim(req.time.value), Trim(req.symptoms.value), Pending, ""))
        && store.records == old(store.records) + [r.data]
    ensures ReachesConflictCheck(users, req) ==>
      (r == Refuse(SlotTaken) <==> KeyHeld(old(store.records), StoredKey(req)))
  {
    var rejection := RouteRejection(store.records, users, req);
    if rejection.Some? {
      return Refuse(rejection.value);
    }
    var built := Build(store.nextId, RouteDraft(user, req));
    if built.Failure? {
      return Refuse(ServerError);
    }
    var created := store.Create(built.value);
    r := Ok(201, created.value);
  }

  /**
   * `PUT /:id/status` by the signed-in doctor `user`: the status must not be empty; a
   * malformed id throws (500); otherwise the document with that id and that doctor gets the
   * requested status text, whatever it is and whatever the current status, and nothing else
   * changes; with no such document the reply is 404.
   */
  method UpdateStatus(store: Store, user: UserId, id: IdText, status: Option<string>)
    returns (r: Reply<Appointment>)
    requires store.Valid()
    modifies store
    ensures store.Valid() && store.nextId == old(store.nextId)
    ensures r.Err? ==> store.records == old(store.records)
    ensures !Truthy(status) ==> r == Refuse(ValidationFailed({StatusField}))
    ensures Truthy(status) && id.NotObjectId? ==> r == Refuse(ServerError)
    ensures Truthy(status) && id.ObjectId? ==>
      if exists i :: 0 <= i < |old(store.records)| && old(store.records)[i].id == id.value && old(store.records)[i].doctor == user
      then
        && r == Ok(200, old(store.FindById(id.value)).value.(status := ParseStatus(status.value)))
        && store.records == old(store.records)[IndexOf(old(store.records), id.value).value := r.data]
      else r == Refuse(AppointmentNotFound)
  {
    if !Truthy(status) {
      return Refuse(ValidationFailed({StatusField}));
    }
    if id.NotObjectId? {
      return Refuse(ServerError);
    }
    var updated := store.SetStatusWhere(id.value, user, status.value);
    if updated.None? {
      return Refuse(AppointmentNotFound);
    }
    r := Ok(200, updated.value);
  }

  /**
   * `DELETE /:id` by the signed-in `user`: a malformed id throws (500); an unknown id is a
   * 404; anyone but the appointment's patient or doctor gets a 403; otherwise the document
   * leaves the collection, whatever its status.
   */
  method DeleteAppointment(store: Store, user: UserId, id: IdText) returns (r: Reply<()>)
    requires store.Valid()
    modifies store
    ensures store.Valid() && store.nextId == old(store.nextId)
    ensures r.Err? ==> store.records == old(store.records)
    ensures id.NotObjectId? ==> r == Refuse(ServerError)
    ensures id.ObjectId? && old(store.FindById(id.value)).None? ==> r == Refuse(AppointmentNotFound)
    ensures id.ObjectId? && old(store.FindById(id.value)).Some? ==>
      var a := old(store.FindById(id.value)).value;
      if a.patient != user && a.doctor != user then r == Refuse(NotAuthorized)
      else
        && r == Ok(200, ())
        && store.FindById(id.value).None?
        && exists k :: 0 <= k < |old(store.records)| && old(store.records)[k].id == id.value &&
                       store.records == old(store.records)[..k] + old(store.records)[k + 1..]
  {
    if id.NotObjectId? {
      return Refuse(ServerError);
    }
    var found := store.FindById(id.value);
    if found.None? {
      return Refuse(AppointmentNotFound);
    }
    var a := found.value;
    if a.patient != user && a.doctor != user {
      return Refuse(NotAuthorized);
    }
    store.Remove(id.value);
    r := Ok(200, ());
  }

  /** The listing order `{ date: 1, time: 1 }`: by instant, then by the time text. */
  predicate SlotLe(a: Appointment, b: Appointment) {
    a.date < b.date || (a.date == b.date && StrLe(a.time, b.time))
  }

  lemma SlotLeTotal(a: Appointment, b: Appointment)
    ensures SlotLe(a, b) || SlotLe(b, a)
  {
    StrLeTotal(a.time, b.time);
  }

  lemma SlotLeTrans(a: Appointment, b: Appointment, c: Appointment)
    requires SlotLe(a, b) && SlotLe(b, c)
    ensures SlotLe(a, c)
  {
    if a.date == b.date == c.date {
      StrLeTrans(a.time, b.time, c.time);
    }
  }

  predicate SortedBySlot(s: seq<Appointment>) {
    forall i, j :: 0 <= i < j < |s| ==> SlotLe(s[i], s[j])
  }

  /** A sorted sequence stays sorted under a new head that precedes every element. */
  lemma ConsSorted(x: Appointment, s: seq<Appointment>)
    requires SortedBySlot(s)
    requires forall y :: y in s ==> SlotLe(x, y)
    ensures SortedBySlot([x] + s)
  {
    var t := [x] + s;
    forall i, j | 0 <= i < j < |t|
      ensures SlotLe(t[i], t[j])
    {
      assert t[j] == s[j - 1];
      if i > 0 {
        assert t[i] == s[i - 1];
      }
    }
  }

  /** Puts `a` in place in a sorted sequence. */
  function Insert(a: Appointment, s: seq<Appointment>): (r: seq<Appointment>)
    requires SortedBySlot(s)
    ensures SortedBySlot(r) && multiset(r) == multiset(s) + multiset{a}
  {
    if s == [] then [a]
    else if SlotLe(a, s[0]) then
      InsertAtHead(a, s);
      [a] + s
    else
      assert s == [s[0]] + s[1..];
      var rest := Insert(a, s[1..]);
      InsertBelowHead(a, s, rest);
      [s[0]] + rest
  }

  lemma InsertAtHead(a: Appointment, s: seq<Appointment>)
    requires SortedBySlot(s) && s != [] && SlotLe(a, s[0])
    ensures SortedBySlot([a] + s)
  {
    forall y | y in s
      ensures SlotLe(a, y)
    {
      var j :| 0 <= j < |s| && s[j] == y;
      if j > 0 {
        SlotLeTrans(a, s[0], y);
      }
    }
    ConsSorted(a, s);
  }

  lemma InsertBelowHead(a: Appointment, s: seq<Appointment>, rest: seq<Appointment>)
    requires SortedBySlot(s) && s != [] && !SlotLe(a, s[0])
    requires SortedBySlot(rest) && multiset(rest) == multiset(s[1..]) + multiset{a}
    ensures SortedBySlot([s[0]] + rest)
  {
    forall y | y in rest
      ensures SlotLe(s[0], y)
    {
      assert y in multiset(rest);
      if y == a {
        SlotLeTotal(a, s[0]);
      } else {
        assert y in multiset(s[1..]);
        var j :| 0 <= j < |s[1..]| && s[1..][j] == y;
        assert s[j + 1] == y;
      }
    }
    ConsSorted(s[0], rest);
  }

  /** Insertion sort by slot: a sorted permutation. */
  function SortBySlot(s: seq<Appointment>): (r: seq<Appointment>)
    ensures SortedBySlot(r) && multiset(r) == multiset(s)
  {
    if s == [] then []
    else
      assert s == [s[0]] + s[1..];
      Insert(s[0], SortBySlot(s[1..]))
  }

  /** `find(condition)`: the documents meeting it, in collection order. */
  function Where(rs: seq<Appointment>, p: Appointment -> bool): (r: seq<Appointment>)
    ensures forall a :: multiset(r)[a] == if p(a) then multiset(rs)[a] else 0
  {
    if rs == [] then []
    else
      assert rs == [rs[0]] + rs[1..];
      (if p(rs[0]) then [rs[0]] else []) + Where(rs[1..], p)
  }

  /**
   * `GET /patient` for the signed-in `user`: exactly that patient's appointments, each as
   * often as stored, ascending by date and then time.
   */
  method PatientAppointments(store: Store, user: UserId) returns (r: Reply<seq<Appointment>>)
    ensures r.Ok? && r.code == 200 && SortedBySlot(r.data)
    ensures forall a :: multiset(r.data)[a] == if a.patient == user then multiset(store.records)[a] else 0
  {
    r := Ok(200, SortBySlot(Where(store.records, (a: Appointment) => a.patient == user)));
  }

  /**
   * `GET /doctor` for the signed-in doctor `user`: exactly that doctor's appointments,
   * ascending by date and then time.
   */
  method DoctorAppointments(store: Store, user: UserId) returns (r: Reply<seq<Appointment>>)
    ensures r.Ok? && r.code == 200 && SortedBySlot(r.data)
    ensures forall a :: multiset(r.data)[a] == if a.doctor == user then multiset(store.records)[a] else 0
  {
    r := Ok(200, SortBySlot(Where(store.records, (a: Appointment) => a.doctor == user)));
  }
}
