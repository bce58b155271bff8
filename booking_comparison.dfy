/**
 * How the two booking implementations over the same collection differ: the controller's
 * conflict check counts only open appointments at the exact start of the day, the route's
 * pre-check and the unique index count every appointment at the exact instant, and the
 * availability listing counts open appointments anywhere in the day.
 */
module BookingComparison {

  import opened Wrappers
  import opened Accounts
  import opened AppointmentSchema
  import C = AppointmentController

  /** Whatever blocks a booking in the controller also blocks it at the route and the index. */
  lemma ControllerConflictIsRouteConflict(rs: seq<Appointment>, doctor: UserId, date: Instant, time: string)
    requires C.ActiveSlotTaken(rs, doctor, date, time, None)
    ensures KeyHeld(rs, (doctor, date, time))
  {
    var i :| 0 <= i < |rs| && C.Occupies(rs[i], doctor, date, time);
    assert SlotKey(rs[i]) == (doctor, date, time);
  }

  /**
   * A cancelled or completed appointment blocks its slot at the route and the index, but
   * not in the controller's check.
   */
  lemma ClosedAppointmentBlocksOnlyTheRoute(rs: seq<Appointment>, i: nat)
    requires SlotsUnique(rs) && i < |rs| && !IsActive(rs[i].status)
    ensures KeyHeld(rs, SlotKey(rs[i]))
    ensures !C.ActiveSlotTaken(rs, rs[i].doctor, rs[i].date, rs[i].time, None)
  {
    forall j | 0 <= j < |rs| && j != i
      ensures SlotKey(rs[j]) != SlotKey(rs[i])
    {
      if j < i {
        assert SlotKey(rs[j]) != SlotKey(rs[i]);
      } else {
        assert SlotKey(rs[i]) != SlotKey(rs[j]);
      }
    }
  }

  /**
   * The route's delete frees the slot for every later booking; the controller's cancel
   * keeps the document, so its key stays in the unique index.
   */
  lemma DeleteFreesSlotCancelDoesNot(rs: seq<Appointment>, k: nat)
    requires SlotsUnique(rs) && k < |rs|
    ensures !KeyHeld(rs[..k] + rs[k + 1..], SlotKey(rs[k]))
    ensures KeyHeld(rs[k := rs[k].(status := Cancelled)], SlotKey(rs[k]))
  {
    var t := rs[..k] + rs[k + 1..];
    forall j | 0 <= j < |t|
      ensures SlotKey(t[j]) != SlotKey(rs[k])
    {
      if j < k {
        assert t[j] == rs[j];
      } else {
        assert t[j] == rs[j + 1];
        assert SlotKey(rs[k]) != SlotKey(rs[j + 1]);
      }
    }
    var u := rs[k := rs[k].(status := Cancelled)];
    assert SlotKey(u[k]) == SlotKey(rs[k]);
  }

  /** A slot the availability listing shows passes the controller's conflict check for that day. */
  lemma AvailableSlotPassesConflictCheck(rs: seq<Appointment>, doctor: UserId, day: int, time: string)
    requires !exists a :: a in rs && C.BookedOn(a, doctor, day) && a.time == time
    ensures !C.ActiveSlotTaken(rs, doctor, StartOfDay(day), time, None)
  {
    DayRange(StartOfDay(day), day);
    if C.ActiveSlotTaken(rs, doctor, StartOfDay(day), time, None) {
      var i :| 0 <= i < |rs| && C.Occupies(rs[i], doctor, StartOfDay(day), time);
      assert rs[i] in rs && C.BookedOn(rs[i], doctor, day);
    }
  }

  /**
   * The converse fails: an open appointment stored at any instant of the day other than
   * its midnight, as the route stores `new Date(date)`, hides its slot from the listing yet
   * does not block the controller's exact-date check.
   */
  lemma SameDayOtherInstantEscapesConflictCheck(a: Appointment, day: int)
    requires IsActive(a.status) && StartOfDay(day) < a.date < StartOfDay(day + 1)
    ensures C.BookedOn(a, a.doctor, day)
    ensures !C.ActiveSlotTaken([a], a.doctor, StartOfDay(day), a.time, None)
  {
    DayRange(a.date, day);
  }
}
