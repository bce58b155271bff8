/**
 * The express-validator chain for a booking body: every field must be non-empty; the
 * doctor id must be an ObjectId and the date ISO 8601; the time is trimmed and then must be
 * strict `HH:MM`; the symptoms are trimmed and HTML-escaped.
 */
module BookingValidation {

  import opened Wrappers
  import opened Text
  import opened Clock
  import opened Http

  predicate IsHexDigit(c: char) {
    ('0' <= c <= '9') || ('a' <= c <= 'f') || ('A' <= c <= 'F')
  }

  predicate AllHex(s: string) {
    s != [] && forall i :: 0 <= i < |s| ==> IsHexDigit(s[i])
  }

  /**
   * validator's `isHexadecimal`, the pattern `^(0x|0h)?[0-9a-f]+$` without regard to case:
   * hexadecimal digits, optionally after a `0x` or `0h` prefix.
   */
  predicate IsHexadecimal(s: string) {
    || AllHex(s)
    || (|s| > 2 && s[0] == '0' && s[1] in {'x', 'X', 'h', 'H'} && AllHex(s[2..]))
  }

  /** validator's `isMongoId()`: a hexadecimal text of exactly 24 characters, prefix included. */
  predicate IsMongoId(s: string) {
    IsHexadecimal(s) && |s| == 24
  }

  /** A `0x`-prefixed id of 22 digits passes, as does a plain one of 24; 23 plain digits do not. */
  lemma MongoIdPrefix(digits: string)
    requires |digits| == 22 && AllHex(digits)
    ensures IsMongoId("0x" + digits)
    ensures IsMongoId("00" + digits)
    ensures !IsMongoId("0" + digits)
  {
    assert ("0x" + digits)[2..] == digits;
    var z := "00" + digits;
    assert forall i :: 2 <= i < |z| ==> z[i] == digits[i - 2];
  }

  /** The raw body; an absent field is `None`. */
  datatype BookingBody = BookingBody(
    doctorId: Option<string>,
    date: Option<string>,
    time: Option<string>,
    symptoms: Option<string>)

  /** The body after the sanitizers ran: trimmed time, trimmed and escaped symptoms. */
  datatype CleanBooking = CleanBooking(doctorId: string, date: string, time: string, symptoms: string)

  /**
   * The fields the chain reports; `not().isEmpty()` fails on an absent field and on the
   * empty text. Validators in one chain all run on the value as the
   * sanitizers before them left it; `isISO8601` is the parameter `isIso`.
   */
  function FieldErrors(body: BookingBody, isIso: string -> bool): (r: set<BodyField>)
    ensures DoctorIdField in r <==> !Truthy(body.doctorId) || !IsMongoId(body.doctorId.value)
    ensures DateField in r <==> !Truthy(body.date) || !isIso(body.date.value)
    ensures TimeField in r <==> !Truthy(body.time) || !IsValidTimeFormat(Trim(body.time.value))
    ensures SymptomsField in r <==> !Truthy(body.symptoms)
    ensures StatusField !in r
  {
    set f | f in {DoctorIdField, DateField, TimeField, SymptomsField} && FieldFails(body, isIso, f)
  }

  /** Whether the chain of one field reports it. */
  predicate FieldFails(body: BookingBody, isIso: string -> bool, f: BodyField) {
    match f
    case DoctorIdField => !Truthy(body.doctorId) || !IsMongoId(body.doctorId.value)
    case DateField => !Truthy(body.date) || !isIso(body.date.value)
    case TimeField => !Truthy(body.time) || !IsValidTimeFormat(Trim(body.time.value))
    case SymptomsField => !Truthy(body.symptoms)
    case StatusField => false
  }

  /**
   * `validateAppointment` followed by `validationResult`: the reported fields, or the
   * sanitized body. An accepted time is strictly valid after trimming, and the stored
   * symptoms decode back to the trimmed input.
   */
  function ValidateBooking(body: BookingBody, isIso: string -> bool): (r: Result<CleanBooking, set<BodyField>>)
    ensures r.Failure? <==> FieldErrors(body, isIso) != {}
    ensures r.Failure? ==> r.error == FieldErrors(body, isIso)
    ensures r.Success? ==>
      && IsMongoId(r.value.doctorId) && isIso(r.value.date)
      && r.value.time == Trim(body.time.value) && IsValidTimeFormat(r.value.time)
      && r.value.symptoms == Escape(Trim(body.symptoms.value))
      && Unescape(r.value.symptoms) == Trim(body.symptoms.value)
  {
    var errs := FieldErrors(body, isIso);
    if errs != {} then Failure(errs)
    else
      assert DoctorIdField !in errs && DateField !in errs && TimeField !in errs;
      UnescapeEscape(Trim(body.symptoms.value));
      Success(CleanBooking(body.doctorId.value, body.date.value, Trim(body.time.value), Escape(Trim(body.symptoms.value))))
  }

  /** A strictly valid time padded with white space is accepted, as the time without the padding. */
  lemma PaddedTimeAccepted(a: string, t: string, b: string)
    requires AllWhitespace(a) && AllWhitespace(b) && IsValidTimeFormat(t)
    ensures TimeField !in FieldErrors(BookingBody(None, None, Some(a + t + b), None), _ => true)
    ensures Trim(a + t + b) == t
  {
    assert IsDigit(t[0]) && IsDigit(t[4]);
    TrimOfPadded(a, t, b);
  }

  /** Symptoms made of white space only pass the chain and are sanitized to the empty text. */
  lemma BlankSymptomsPass(s: string)
    requires s != "" && AllWhitespace(s)
    ensures SymptomsField !in FieldErrors(BookingBody(None, None, None, Some(s)), _ => true)
    ensures Escape(Trim(s)) == ""
  {
    assert s + [] + [] == s;
    TrimOfPadded(s, [], []);
  }
}
