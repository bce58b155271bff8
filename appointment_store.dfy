/**
 * The appointment collection: documents in insertion order, the queries the handlers run
 * on it, and the writes (`create`, `save`, `findOneAndUpdate`, `deleteOne`) with the
 * schema's validation and unique index enforced on them.
 */
module AppointmentStore {

  import opened Wrappers
  import opened Text
  import opened Accounts
  import opened AppointmentSchema

  /** The position of the document with the given id. */
  function IndexOf(rs: seq<Appointment>, id: AppointmentId): (r: Option<nat>)
    ensures r.Some? <==> exists i :: 0 <= i < |rs| && rs[i].id == id
    ensures r.Some? ==> r.value < |rs| && rs[r.value].id == id
  {
    if rs == [] then None
    else if rs[0].id == id then Some(0)
    else
      match IndexOf(rs[1..], id)
      case None =>
        assert forall i :: 1 <= i < |rs| ==> rs[i] == rs[1..][i - 1];
        None
      case Some(k) => Some(k + 1)
  }

  ghost predicate IdsDistinct(rs: seq<Appointment>) {
    forall i, j :: 0 <= i < j < |rs| ==> rs[i].id != rs[j].id
  }

  lemma AppendKeepsKeysDistinct(rs: seq<Appointment>, a: Appointment)
    requires IdsDistinct(rs) && SlotsUnique(rs)
    requires forall i :: 0 <= i < |rs| ==> rs[i].id != a.id && SlotKey(rs[i]) != SlotKey(a)
    ensures IdsDistinct(rs + [a]) && SlotsUnique(rs + [a])
  {
    var t := rs + [a];
    forall i, j | 0 <= i < j < |t|
      ensures t[i].id != t[j].id && SlotKey(t[i]) != SlotKey(t[j])
    {
      assert t[i] == rs[i];
      if j < |rs| {
        assert t[j] == rs[j];
      } else {
        assert t[j] == a;
      }
    }
  }

  lemma ReplaceKeepsKeysDistinct(rs: seq<Appointment>, k: nat, a: Appointment)
    requires k < |rs| && IdsDistinct(rs) && SlotsUnique(rs) && rs[k].id == a.id
    requires forall i :: 0 <= i < |rs| && i != k ==> SlotKey(rs[i]) != SlotKey(a)
    ensures IdsDistinct(rs[k := a]) && SlotsUnique(rs[k := a])
  {
    var t := rs[k := a];
    forall i, j | 0 <= i < j < |t|
      ensures t[i].id != t[j].id && SlotKey(t[i]) != SlotKey(t[j])
    {
      assert t[i] == if i == k then a else rs[i];
      assert t[j] == if j == k then a else rs[j];
    }
  }

  lemma RemoveKeepsKeysDistinct(rs: seq<Appointment>, k: nat)
    requires k < |rs| && IdsDistinct(rs) && SlotsUnique(rs)
    ensures IdsDistinct(rs[..k] + rs[k + 1..]) && SlotsUnique(rs[..k] + rs[k + 1..])
  {
    var t := rs[..k] + rs[k + 1..];
    forall i, j | 0 <= i < j < |t|
      ensures t[i].id != t[j].id && SlotKey(t[i]) != SlotKey(t[j])
    {
      assert t[i] == rs[if i < k then i else i + 1];
      assert t[j] == rs[if j < k then j else j + 1];
    }
  }

  /** The store invariant on plain values: fresh-below-counter ids, well-formed documents, both indexes unique. */
  ghost predicate ValidRecords(rs: seq<Appointment>, nextId: AppointmentId) {
    && (forall i :: 0 <= i < |rs| ==> rs[i].id < nextId && WellFormed(rs[i]))
    && IdsDistinct(rs)
    && SlotsUnique(rs)
  }

  lemma ReplaceKeepsValid(rs: seq<Appointment>, nextId: AppointmentId, k: nat, a: Appointment)
    requires ValidRecords(rs, nextId) && k < |rs| && rs[k].id == a.id && WellFormed(a)
    requires forall i :: 0 <= i < |rs| && i != k ==> SlotKey(rs[i]) != SlotKey(a)
    ensures ValidRecords(rs[k := a], nextId)
  {
    ReplaceKeepsKeysDistinct(rs, k, a);
    var t := rs[k := a];
    assert forall i :: 0 <= i < |t| ==> t[i] == if i == k then a else rs[i];
  }

  /** Appending a well-formed document with the next id and a free key keeps the invariant, with the counter advanced. */
  lemma AppendKeepsValid(rs: seq<Appointment>, nextId: AppointmentId, a: Appointment)
    requires ValidRecords(rs, nextId) && a.id == nextId && WellFormed(a) && !KeyHeld(rs, SlotKey(a))
    ensures ValidRecords(rs + [a], nextId + 1)
  {
    AppendKeepsKeysDistinct(rs, a);
    var t := rs + [a];
    assert forall i :: 0 <= i < |t| ==> t[i] == if i < |rs| then rs[i] else a;
  }

  /** Removing a document keeps the invariant, and no document with its id is left. */
  lemma RemoveKeepsValid(rs: seq<Appointment>, nextId: AppointmentId, k: nat) returns (t: seq<Appointment>)
    requires ValidRecords(rs, nextId) && k < |rs|
    ensures t == rs[..k] + rs[k + 1..] && ValidRecords(t, nextId)
    ensures forall i :: 0 <= i < |t| ==> t[i].id != rs[k].id
  {
    RemoveKeepsKeysDistinct(rs, k);
    t := rs[..k] + rs[k + 1..];
    assert forall i :: 0 <= i < |t| ==> t[i] == rs[if i < k then i else i + 1];
  }

  /** Under the unique indexes, the key of a stored document is held by no other document. */
  lemma OwnKeyNotHeldByOther(rs: seq<Appointment>, nextId: AppointmentId, k: nat)
    requires ValidRecords(rs, nextId) && k < |rs|
    ensures !KeyHeldByOther(rs, SlotKey(rs[k]), rs[k].id)
  {
    forall i | 0 <= i < |rs| && rs[i].id != rs[k].id
      ensures SlotKey(rs[i]) != SlotKey(rs[k])
    {
      if i < k {
        assert SlotKey(rs[i]) != SlotKey(rs[k]);
      } else {
        assert SlotKey(rs[k]) != SlotKey(rs[i]);
      }
    }
  }

  /** Errors a write reports: a `ValidationError`, or the duplicate-key error 11000 of the unique index. */
  datatype WriteError = Invalid(paths: set<Path>) | DuplicateKey

  /** Some document other than `id` holds the key. */
  predicate KeyHeldByOther(rs: seq<Appointment>, key: (UserId, Instant, string), id: AppointmentId) {
    exists i :: 0 <= i < |rs| && rs[i].id != id && SlotKey(rs[i]) == key
  }

  /** Replacing a document by a well-formed one with its id whose key no other document holds keeps the invariant. */
  lemma SaveKeepsValid(rs: seq<Appointment>, nextId: AppointmentId, k: nat, n: Appointment)
    requires ValidRecords(rs, nextId) && k < |rs| && rs[k].id == n.id && WellFormed(n)
    requires !KeyHeldByOther(rs, SlotKey(n), n.id)
    ensures ValidRecords(rs[k := n], nextId)
  {
    forall i | 0 <= i < |rs| && i != k
      ensures SlotKey(rs[i]) != SlotKey(n)
    {
      if i < k {
        assert rs[i].id != rs[k].id;
      } else {
        assert rs[k].id != rs[i].id;
      }
    }
    ReplaceKeepsValid(rs, nextId, k, n);
  }

  class Store {
    var records: seq<Appointment>
    /** Ids are handed out in increasing order; ObjectId generation is abstracted to this counter. */
    var nextId: AppointmentId

    ghost predicate Valid()
      reads this
    {
      ValidRecords(records, nextId)
    }

    constructor ()
      ensures Valid() && records == [] && nextId == 0
    {
      records := [];
      nextId := 0;
    }

    /** `Appointment.findById(id)`. */
    function FindById(id: AppointmentId): (r: Option<Appointment>)
      reads this
      ensures r.Some? <==> exists i :: 0 <= i < |records| && records[i].id == id
      ensures r.Some? ==> r.value in records && r.value.id == id
    {
      match IndexOf(records, id)
      case None => None
      case Some(k) => Some(records[k])
    }

    /**
     * The insert of `Appointment.create`, for a document the model's constructor built and
     * validated (`Build`): the unique index refuses a key some stored document holds;
     * otherwise the document is appended and the next id is taken.
     */
    method Create(a: Appointment) returns (r: Result<Appointment, WriteError>)
      requires Valid() && a.id == nextId && WellFormed(a)
      modifies this
      ensures Valid()
      ensures r.Success? <==> !KeyHeld(old(records), SlotKey(a))
      ensures r.Failure? ==> r.error == DuplicateKey && records == old(records) && nextId == old(nextId)
      ensures r.Success? ==> r.value == a && records == old(records) + [a] && nextId == old(nextId) + 1
    {
      if KeyHeld(records, SlotKey(a)) {
        return Failure(DuplicateKey);
      }
      AppendKeepsValid(records, nextId, a);
      records := records + [a];
      nextId := nextId + 1;
      r := Success(a);
    }

    /**
     * `doc.save()` for a loaded document whose fields were reassigned (the `trim` setters
     * ran on assignment, so its texts are trimmed): the schema validates, the unique index checks the key against the other documents,
     * and only then the stored document is replaced, in place.
     */
    method Save(a: Appointment) returns (r: Result<Appointment, WriteError>)
      requires Valid()
      requires FindById(a.id).Some?
      requires IsTrimmed(a.time) && IsTrimmed(a.symptoms) && IsTrimmed(a.notes)
      modifies this
      ensures Valid() && nextId == old(nextId)
      ensures DocumentViolations(a) != {} ==> r == Failure(Invalid(DocumentViolations(a)))
      ensures DocumentViolations(a) == {} ==>
        (r == Failure(DuplicateKey) <==> KeyHeldByOther(old(records), SlotKey(a), a.id))
      ensures r.Success? <==> DocumentViolations(a) == {} && !KeyHeldByOther(old(records), SlotKey(a), a.id)
      ensures r.Success? ==> r.value == a && records == old(records)[IndexOf(old(records), a.id).value := a]
      ensures r.Failure? ==> records == old(records)
    {
      var v := DocumentViolations(a);
      if v != {} {
        return Failure(Invalid(v));
      }
      if KeyHeldByOther(records, SlotKey(a), a.id) {
        return Failure(DuplicateKey);
      }
      SavedIsWellFormed(a);
      var k := IndexOf(records, a.id).value;
      SaveKeepsValid(records, nextId, k, a);
      records := records[k := a];
      r := Success(a);
    }

    /**
     * `findOneAndUpdate({ _id: id, doctor }, { status })` with the default options: no
     * validator runs, so any status text is stored; only the status of the one matching
     * document changes.
     */
    method SetStatusWhere(id: AppointmentId, doctor: UserId, status: string) returns (r: Option<Appointment>)
      requires Valid()
      modifies this
      ensures Valid() && nextId == old(nextId)
      ensures r.Some? <==> exists i :: 0 <= i < |old(records)| && old(records)[i].id == id && old(records)[i].doctor == doctor
      ensures r.Some? ==> old(FindById(id)).Some? && r.value == old(FindById(id)).value.(status := ParseStatus(status))
      ensures r.Some? ==> records == old(records)[IndexOf(old(records), id).value := r.value]
      ensures r.None? ==> records == old(records)
    {
      var k := IndexOf(records, id);
      if k.None? || records[k.value].doctor != doctor {
        return None;
      }
      var updated := records[k.value].(status := ParseStatus(status));
      ReplaceKeepsValid(records, nextId, k.value, updated);
      records := records[k.value := updated];
      r := Some(updated);
    }

    /** `doc.deleteOne()` for a loaded document: it leaves the collection, the others stay in order. */
    method Remove(id: AppointmentId)
      requires Valid()
      requires FindById(id).Some?
      modifies this
      ensures Valid() && nextId == old(nextId)
      ensures FindById(id).None?
      ensures exists k :: 0 <= k < |old(records)| && old(records)[k].id == id &&
                          records == old(records)[..k] + old(records)[k + 1..]
    {
      var k := IndexOf(records, id).value;
      ghost var t := RemoveKeepsValid(records, nextId, k);
      records := records[..k] + records[k + 1..];
    }
  }
}
