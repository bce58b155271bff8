/**
 * The prescription controller: a new prescription stores its medicines and dosage texts as
 * clean line lists, and the e-mail that carries a prescription PDF lists each medicine line
 * with the dosage line at the same position. Both handlers sit behind `protect` and the
 * doctor-only guard.
 */
module Prescriptions {

  import opened Wrappers
  import opened Text
  import opened Accounts
  import opened Http
  import opened Auth

  /** `lines.filter(Boolean)` on texts: the non-empty ones, in order. */
  function NonEmpty(lines: seq<string>): (r: seq<string>)
    ensures forall s :: s in r <==> s in lines && s != ""
    ensures (forall i :: 0 <= i < |lines| ==> lines[i] != "") ==> r == lines
  {
    if lines == [] then []
    else
      assert forall s :: s in lines <==> s == lines[0] || s in lines[1..];
      (if lines[0] == "" then [] else [lines[0]]) + NonEmpty(lines[1..])
  }

  /** Filtering a concatenation filters each part, keeping order and repetitions. */
  lemma {:induction false} NonEmptyAppend(a: seq<string>, b: seq<string>)
    ensures NonEmpty(a + b) == NonEmpty(a) + NonEmpty(b)
  {
    if a == [] {
      assert a + b == b;
    } else {
      assert (a + b)[0] == a[0] && (a + b)[1..] == a[1..] + b;
      NonEmptyAppend(a[1..], b);
    }
  }

  /** `s.map(f)`. */
  function Map<T, U>(f: T -> U, s: seq<T>): (r: seq<U>)
    ensures |r| == |s| && forall i :: 0 <= i < |s| ==> r[i] == f(s[i])
  {
    seq(|s|, i requires 0 <= i < |s| => f(s[i]))
  }

  lemma MapAppend<T, U>(f: T -> U, a: seq<T>, b: seq<T>)
    ensures Map(f, a + b) == Map(f, a) + Map(f, b)
  {
    var l, r := Map(f, a + b), Map(f, a) + Map(f, b);
    forall i | 0 <= i < |l|
      ensures l[i] == r[i]
    {
      if i < |a| {
        assert (a + b)[i] == a[i];
      } else {
        assert (a + b)[i] == b[i - |a|];
      }
    }
  }

  /** `lines.map(l => l.trim())`. */
  function TrimEach(lines: seq<string>): (r: seq<string>)
    ensures |r| == |lines| && forall i :: 0 <= i < |r| ==> r[i] == Trim(lines[i])
  {
    Map(Trim, lines)
  }

  /** Trimming each line of a concatenation trims each part. */
  lemma TrimEachAppend(a: seq<string>, b: seq<string>)
    ensures TrimEach(a + b) == TrimEach(a) + TrimEach(b)
  {
    MapAppend(Trim, a, b);
  }

  /** Trimming each piece keeps every piece free of the separator and gives the trimmed pieces. */
  lemma TrimEachPieces(parts: seq<string>, sep: char)
    requires forall i :: 0 <= i < |parts| ==> sep !in parts[i]
    ensures forall i :: 0 <= i < |parts| ==> sep !in TrimEach(parts)[i]
    ensures forall s :: s in TrimEach(parts) <==> exists p :: p in parts && Trim(p) == s
    ensures forall s :: s in TrimEach(parts) ==> IsTrimmed(s) && sep !in s
  {
    var trimmed := TrimEach(parts);
    forall i | 0 <= i < |parts|
      ensures sep !in trimmed[i]
    {
      TrimWithin(parts[i], sep);
    }
    forall s | exists p :: p in parts && Trim(p) == s
      ensures s in trimmed
    {
      var p :| p in parts && Trim(p) == s;
      var i :| 0 <= i < |parts| && parts[i] == p;
      assert trimmed[i] == s;
    }
  }

  /**
   * `text.split('\n').map(l => l.trim()).filter(Boolean)`: non-empty, trimmed lines without
   * a newline, each the trimmed form of a piece of the text. `CleanLinesConcat` and
   * `CleanLinesOneLine` fix their order and repetitions.
   */
  function CleanLines(text: string): (r: seq<string>)
    ensures forall i :: 0 <= i < |r| ==> r[i] != "" && IsTrimmed(r[i]) && '\n' !in r[i]
  {
    var parts := Split(text, '\n');
    TrimEachPieces(parts, '\n');
    var r := NonEmpty(TrimEach(parts));
    assert forall i :: 0 <= i < |r| ==> r[i] in r;
    r
  }

  /** The stored lines are exactly the non-empty trimmed pieces of the text. */
  lemma CleanLinesMembers(text: string)
    ensures forall s :: s in CleanLines(text) <==> s != "" && exists p :: p in Split(text, '\n') && Trim(p) == s
  {
    TrimEachPieces(Split(text, '\n'), '\n');
  }

  /**
   * Cleaning works line by line: a text cut at a newline cleans to the lines of the part
   * before it followed by those of the part after it, in order and with repetitions.
   */
  lemma CleanLinesConcat(a: string, b: string)
    ensures CleanLines(a + "\n" + b) == CleanLines(a) + CleanLines(b)
  {
    SplitConcat(a, '\n', b);
    var pa, pb := Split(a, '\n'), Split(b, '\n');
    TrimEachAppend(pa, pb);
    NonEmptyAppend(TrimEach(pa), TrimEach(pb));
  }

  /** A text without a newline cleans to its trimmed form, or to nothing when that is empty. */
  lemma CleanLinesOneLine(a: string)
    requires '\n' !in a
    ensures CleanLines(a) == if Trim(a) == "" then [] else [Trim(a)]
  {
    SplitWithout(a, '\n');
    TrimEachSingle(a);
    NonEmptySingle(Trim(a));
  }

  lemma TrimEachSingle(a: string)
    ensures TrimEach([a]) == [Trim(a)]
  {
    assert TrimEach([a])[0] == Trim(a);
  }

  /** A single line survives the filter exactly when it is not empty. */
  lemma NonEmptySingle(x: string)
    ensures NonEmpty([x]) == if x == "" then [] else [x]
  {
    assert [x][1..] == [];
  }

  /** Clean lines joined with newlines come back unchanged, in the same order. */
  lemma CleanLinesRoundTrip(lines: seq<string>)
    requires |lines| >= 1
    requires forall i :: 0 <= i < |lines| ==> lines[i] != "" && IsTrimmed(lines[i]) && '\n' !in lines[i]
    ensures CleanLines(Join(lines, '\n')) == lines
  {
    SplitJoin(lines, '\n');
    forall i | 0 <= i < |lines|
      ensures Trim(lines[i]) == lines[i]
    {
      TrimmedIsFixed(lines[i]);
    }
    assert TrimEach(lines) == lines;
  }

  /** Cleaning is idempotent: stored lines written back as text store the same lines. */
  lemma CleanLinesIdempotent(text: string)
    requires CleanLines(text) != []
    ensures CleanLines(Join(CleanLines(text), '\n')) == CleanLines(text)
  {
    CleanLinesRoundTrip(CleanLines(text));
  }

  /** The fields of a `POST /api/prescriptions` body; an absent field is `None`. */
  datatype PrescriptionBody = PrescriptionBody(
    patientId: Option<UserId>,
    doctorId: Option<UserId>,
    medicines: Option<string>,
    dosage: Option<string>,
    instructions: Option<string>,
    followUpDate: Option<string>,
    diagnosis: Option<string>,
    date: Option<string>)

  datatype Prescription = Prescription(
    patient: Option<UserId>,
    doctor: Option<UserId>,
    medicines: seq<string>,
    dosage: seq<string>,
    instructions: Option<string>,
    followUpDate: Option<string>,
    diagnosis: Option<string>,
    date: Option<string>)

  /** The prescription collection. */
  class PrescriptionBook {
    var records: seq<Prescription>

    constructor ()
      ensures records == []
    {
      records := [];
    }
  }

  /**
   * `createPrescription` behind the doctor-only guard: a refused user gets the guard's
   * code; an absent medicines or dosage text makes `split` throw (500); otherwise one
   * prescription with the cleaned line lists is appended.
   */
  method CreatePrescription(book: PrescriptionBook, user: Option<User>, body: PrescriptionBody)
    returns (r: Reply<Prescription>)
    modifies book
    ensures r.Err? ==> book.records == old(book.records)
    ensures Authorize(PrescriptionGuard(), user) != Next ==>
      r == Err(Authorize(PrescriptionGuard(), user).code, NotAuthorized)
    ensures Authorize(PrescriptionGuard(), user) == Next && (body.medicines.None? || body.dosage.None?) ==>
      r == Err(500, ServerError)
    ensures Authorize(PrescriptionGuard(), user) == Next && body.medicines.Some? && body.dosage.Some? ==>
      && r.Ok? && r.code == 201
      && r.data == Prescription(body.patientId, body.doctorId,
                                CleanLines(body.medicines.value), CleanLines(body.dosage.value),
                                body.instructions, body.followUpDate, body.diagnosis, body.date)
      && book.records == old(book.records) + [r.data]
  {
    var gate := Authorize(PrescriptionGuard(), user);
    if gate != Next {
      return Err(gate.code, NotAuthorized);
    }
    if body.medicines.None? || body.dosage.None? {
      return Err(500, ServerError);
    }
    var p := Prescription(body.patientId, body.doctorId,
                          CleanLines(body.medicines.value), CleanLines(body.dosage.value),
                          body.instructions, body.followUpDate, body.diagnosis, body.date);
    book.records := book.records + [p];
    r := Ok(201, p);
  }

  /** `s || fallback`. */
  function Or(s: Option<string>, fallback: string): (r: string)
    ensures Truthy(s) ==> r == s.value
    ensures !Truthy(s) ==> r == fallback
  {
    if Truthy(s) then s.value else fallback
  }

  /**
   * `dosage ? dosage.split('\n')[i]?.trim() : 'As directed'` as the template prints it:
   * `undefined` past the last dosage line.
   */
  function DoseFor(dosage: Option<string>, i: nat): string {
    if !Truthy(dosage) then "As directed"
    else
      match Piece(dosage.value, '\n', i)
      case None => "undefined"
      case Some(line) => Trim(line)
  }

  /** The `<li>` texts of the e-mail body: one per medicine line, blank lines included. */
  function MedicineItems(medicines: Option<string>, dosage: Option<string>): (r: seq<string>)
    ensures !Truthy(medicines) ==> r == ["No medicines prescribed."]
    ensures Truthy(medicines) ==> |r| == |Split(medicines.value, '\n')|
  {
    if !Truthy(medicines) then ["No medicines prescribed."]
    else
      var meds := Split(medicines.value, '\n');
      seq(|meds|, i requires 0 <= i < |meds| => Trim(meds[i]) + " - " + DoseFor(dosage, i))
  }

  /** Without a dosage text every medicine line is paired with `As directed`. */
  lemma MedicineItemsAsDirected(medicines: string, dosage: Option<string>, i: nat)
    requires medicines != "" && !Truthy(dosage) && i < |Split(medicines, '\n')|
    ensures MedicineItems(Some(medicines), dosage)[i] == Trim(Split(medicines, '\n')[i]) + " - " + "As directed"
  {
  }

  /** A medicine line past the last dosage line is printed with the dose `undefined`. */
  lemma MedicineItemsPastLastDose(medicines: string, dosage: string, i: nat)
    requires medicines != "" && dosage != ""
    requires |Split(dosage, '\n')| <= i < |Split(medicines, '\n')|
    ensures MedicineItems(Some(medicines), Some(dosage))[i] == Trim(Split(medicines, '\n')[i]) + " - " + "undefined"
  {
    assert Piece(dosage, '\n', i) == None;
  }

  /** Texts with no blank line and as many medicine as dosage lines: the stored lists line up. */
  predicate LinesUp(medicines: string, dosage: string) {
    var m, d := Split(medicines, '\n'), Split(dosage, '\n');
    && |m| == |d|
    && (forall i :: 0 <= i < |m| ==> Trim(m[i]) != "")
    && (forall i :: 0 <= i < |d| ==> Trim(d[i]) != "")
  }

  /**
   * When the texts line up, the e-mail lists exactly the stored prescription: the i-th
   * stored medicine with the i-th stored dosage line.
   */
  lemma EmailMatchesStoredPrescription(medicines: string, dosage: string)
    requires medicines != "" && dosage != "" && LinesUp(medicines, dosage)
    ensures |MedicineItems(Some(medicines), Some(dosage))| == |CleanLines(medicines)| == |CleanLines(dosage)|
    ensures forall i :: 0 <= i < |CleanLines(medicines)| ==>
      MedicineItems(Some(medicines), Some(dosage))[i] == CleanLines(medicines)[i] + " - " + CleanLines(dosage)[i]
  {
    CleanLinesWithoutBlanks(medicines);
    CleanLinesWithoutBlanks(dosage);
    var m, d := Split(medicines, '\n'), Split(dosage, '\n');
    forall i | 0 <= i < |m|
      ensures MedicineItems(Some(medicines), Some(dosage))[i] == CleanLines(medicines)[i] + " - " + CleanLines(dosage)[i]
    {
      ItemPairsLines(medicines, dosage, i);
      assert CleanLines(medicines)[i] == Trim(m[i]) && CleanLines(dosage)[i] == Trim(d[i]);
    }
  }

  lemma ItemPairsLines(medicines: string, dosage: string, i: nat)
    requires medicines != "" && dosage != "" && i < |Split(medicines, '\n')| && i < |Split(dosage, '\n')|
    ensures MedicineItems(Some(medicines), Some(dosage))[i] ==
            Trim(Split(medicines, '\n')[i]) + " - " + Trim(Split(dosage, '\n')[i])
  {
    assert DoseFor(Some(dosage), i) == Trim(Split(dosage, '\n')[i]);
  }

  /** A text with no blank line keeps every line: its clean lines are its trimmed pieces. */
  lemma CleanLinesWithoutBlanks(text: string)
    requires forall i :: 0 <= i < |Split(text, '\n')| ==> Trim(Split(text, '\n')[i]) != ""
    ensures CleanLines(text) == TrimEach(Split(text, '\n'))
  {
  }

  /** An uploaded file: its original name, if any, and its bytes. */
  datatype Upload = Upload(originalName: Option<string>, buffer: seq<bv8>)

  /** The fields of a `POST /api/prescriptions/send-email` body; an absent field is `None`. */
  datatype EmailRequest = EmailRequest(
    patientEmail: Option<string>,
    patientName: Option<string>,
    doctorName: Option<string>,
    diagnosis: Option<string>,
    medicines: Option<string>,
    dosage: Option<string>,
    instructions: Option<string>,
    followUpDate: Option<string>,
    doctorSpecialization: Option<string>,
    clinicName: Option<string>,
    clinicAddress: Option<string>,
    clinicPhone: Option<string>)

  /** The message handed to `sendEmail`, with every text of the HTML body after its fallback. */
  datatype Email = Email(
    to: string,
    subject: string,
    patientName: string,
    doctorName: string,
    specialization: string,
    clinic: string,
    diagnosis: string,
    items: seq<string>,
    instructions: string,
    followUp: string,
    phone: string,
    address: string,
    filename: string,
    pdf: seq<bv8>)

  const SubjectPrefix: string := "Medical Prescription from Dr. "

  /**
   * `sendPrescriptionEmail` behind the doctor-only guard. Without a file, 400; without a
   * recipient, 400; otherwise the e-mail goes to the patient with the PDF attached, and
   * `delivered` stands for the result of `sendEmail`: 200 when it reports success, else 500.
   */
  function SendPrescriptionEmail(user: Option<User>, file: Option<Upload>, req: EmailRequest, delivered: bool): (r: Reply<Email>)
    ensures Authorize(PrescriptionGuard(), user) != Next ==>
      r == Err(Authorize(PrescriptionGuard(), user).code, NotAuthorized)
    ensures Authorize(PrescriptionGuard(), user) == Next ==>
      if file.None? then r == Err(400, MissingAttachment)
      else if !Truthy(req.patientEmail) then r == Err(400, MissingRecipient)
      else if !delivered then r == Err(500, ServerError)
      else
        && r.Ok? && r.code == 200
        && r.data.to == req.patientEmail.value
        && r.data.subject == SubjectPrefix + Or(req.doctorName, "Your Doctor")
        && r.data.patientName == Or(req.patientName, "Patient")
        && r.data.doctorName == Or(req.doctorName, "Doctor")
        && r.data.specialization == Or(req.doctorSpecialization, "General Physician")
        && r.data.clinic == Or(req.clinicName, "Healthcare Clinic")
        && r.data.diagnosis == Or(req.diagnosis, "N/A")
        && r.data.instructions == Or(req.instructions, "N/A")
        && r.data.followUp == Or(req.followUpDate, "Not specified")
        && r.data.phone == Or(req.clinicPhone, "N/A")
        && r.data.address == Or(req.clinicAddress, "N/A")
        && r.data.items == MedicineItems(req.medicines, req.dosage)
        && r.data.filename == Or(file.value.originalName, "medical-prescription.pdf")
        && r.data.pdf == file.value.buffer
  {
    var gate := Authorize(PrescriptionGuard(), user);
    if gate != Next then Err(gate.code, NotAuthorized)
    else if file.None? then Err(400, MissingAttachment)
    else if !Truthy(req.patientEmail) then Err(400, MissingRecipient)
    else if !delivered then Err(500, ServerError)
    else
      Ok(200, Email(
        req.patientEmail.value,
        SubjectPrefix + Or(req.doctorName, "Your Doctor"),
        Or(req.patientName, "Patient"),
        Or(req.doctorName, "Doctor"),
        Or(req.doctorSpecialization, "General Physician"),
        Or(req.clinicName, "Healthcare Clinic"),
        Or(req.diagnosis, "N/A"),
        MedicineItems(req.medicines, req.dosage),
        Or(req.instructions, "N/A"),
        Or(req.followUpDate, "Not specified"),
        Or(req.clinicPhone, "N/A"),
        Or(req.clinicAddress, "N/A"),
        Or(file.value.originalName, "medical-prescription.pdf"),
        file.value.buffer))
  }
}
