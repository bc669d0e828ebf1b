/** The persisted appointment records: their status and type enumerations, the
    record itself with integer millisecond timestamps, half-open interval
    overlap, and the no-double-booking invariant of the appointment store. */
module Ledger {

  import opened Values

  const MinuteMs: int := 60_000
  const DayMs: int := 24 * 60 * MinuteMs

  datatype Status = Scheduled | Completed | Cancelled | Rescheduled

  /** The appointment type enumeration of the store. */
  datatype Kind = Video | Phone | InPerson

  /** Enumeration names as they travel in JSON bodies and query strings. */
  function StatusName(s: Status): string {
    match s
    case Scheduled => "SCHEDULED"
    case Completed => "COMPLETED"
    case Cancelled => "CANCELLED"
    case Rescheduled => "RESCHEDULED"
  }

  function KindName(k: Kind): string {
    match k
    case Video => "VIDEO"
    case Phone => "PHONE"
    case InPerson => "IN_PERSON"
  }

  /** The store's reading of a status string: the status of that name, or
      `None` when no status has that name (the store then rejects the query). */
  function ParseStatus(name: string): (r: Option<Status>)
    ensures forall s :: r == Some(s) <==> StatusName(s) == name
  {
    if name == "SCHEDULED" then Some(Scheduled)
    else if name == "COMPLETED" then Some(Completed)
    else if name == "CANCELLED" then Some(Cancelled)
    else if name == "RESCHEDULED" then Some(Rescheduled)
    else None
  }

  function ParseKind(name: string): (r: Option<Kind>)
    ensures forall k :: r == Some(k) <==> KindName(k) == name
  {
    if name == "VIDEO" then Some(Video)
    else if name == "PHONE" then Some(Phone)
    else if name == "IN_PERSON" then Some(InPerson)
    else None
  }

  /** One appointment row. `date` is the day the appointment is booked on and
      `startTime`/`endTime` are absolute timestamps, all in milliseconds. */
  datatype Appointment = Appointment(
    id: string,
    patientId: string,
    doctorId: string,
    date: int,
    startTime: int,
    endTime: int,
    kind: Kind,
    notes: Option<string>,
    status: Status)

  /** Half-open intervals `[s1, e1)` and `[s2, e2)` share a point. */
  predicate Overlap(s1: int, e1: int, s2: int, e2: int) {
    s1 < e2 && s2 < e1
  }

  /** Two appointments compete for the same time when both are still
      scheduled with the same doctor on the same day. */
  predicate Competing(a: Appointment, b: Appointment) {
    a.doctorId == b.doctorId && a.date == b.date && a.status == Scheduled && b.status == Scheduled
  }

  /** Every scheduled appointment has a non-empty interval. */
  ghost predicate ScheduledWellFormed(l: seq<Appointment>) {
    forall i :: 0 <= i < |l| && l[i].status == Scheduled ==> l[i].startTime < l[i].endTime
  }

  /** No two competing appointments overlap. */
  ghost predicate NoDoubleBooking(l: seq<Appointment>) {
    forall i, j :: 0 <= i < j < |l| && Competing(l[i], l[j]) ==>
      !Overlap(l[i].startTime, l[i].endTime, l[j].startTime, l[j].endTime)
  }

  ghost predicate Consistent(l: seq<Appointment>) {
    ScheduledWellFormed(l) && NoDoubleBooking(l)
  }

  /** The store's update of one appointment's status by id (the PATCH of a
      status body): every row with that id gets the new status, nothing else
      changes; an id that matches no row is an error and changes nothing. */
  function SetStatus(l: seq<Appointment>, id: string, s: Status): (r: Response<seq<Appointment>>)
    ensures r.Fail? <==> forall i :: 0 <= i < |l| ==> l[i].id != id
    ensures r.Fail? ==> r.status == 500
    ensures r.Ok? ==> r.status == 200 && |r.body| == |l|
    ensures r.Ok? ==> forall i :: 0 <= i < |l| ==>
      r.body[i] == (if l[i].id == id then l[i].(status := s) else l[i])
  {
    if forall i :: 0 <= i < |l| ==> l[i].id != id then Fail(500, "Failed to update appointment")
    else Ok(200, seq(|l|, i requires 0 <= i < |l| => if l[i].id == id then l[i].(status := s) else l[i]))
  }

  /** Taking appointments out of `Scheduled` (completing or cancelling them)
      can never create a double booking. */
  lemma {:induction false} LeavingScheduledKeepsConsistent(l: seq<Appointment>, id: string, s: Status)
    requires Consistent(l)
    requires s != Scheduled
    requires SetStatus(l, id, s).Ok?
    ensures Consistent(SetStatus(l, id, s).body)
  {
    var r := SetStatus(l, id, s).body;
    forall i | 0 <= i < |r| && r[i].status == Scheduled
      ensures r[i].startTime < r[i].endTime
    {
      assert r[i] == l[i];
    }
    forall i, j | 0 <= i < j < |r| && Competing(r[i], r[j])
      ensures !Overlap(r[i].startTime, r[i].endTime, r[j].startTime, r[j].endTime)
    {
      assert r[i] == l[i] && r[j] == l[j];
    }
  }

  /** Restoring a cancelled appointment does not look at the other bookings:
      in any store, restoring a cancelled appointment whose time overlaps a
      scheduled booking of the same doctor on the same day double-books. */
  lemma RestoreOverRebookedSlotDoubleBooks(l: seq<Appointment>, i: nat, j: nat)
    requires 0 <= i < |l| && 0 <= j < |l| && l[i].id != l[j].id
    requires l[i].status == Cancelled && l[j].status == Scheduled
    requires l[i].doctorId == l[j].doctorId && l[i].date == l[j].date
    requires Overlap(l[i].startTime, l[i].endTime, l[j].startTime, l[j].endTime)
    ensures SetStatus(l, l[i].id, Scheduled).Ok?
    ensures !NoDoubleBooking(SetStatus(l, l[i].id, Scheduled).body)
  {
    var r := SetStatus(l, l[i].id, Scheduled).body;
    assert r[i] == l[i].(status := Scheduled) && r[j] == l[j];
    if i < j {
      assert Competing(r[i], r[j]) && Overlap(r[i].startTime, r[i].endTime, r[j].startTime, r[j].endTime);
    } else {
      assert Competing(r[j], r[i]) && Overlap(r[j].startTime, r[j].endTime, r[i].startTime, r[i].endTime);
    }
  }

  /** A concrete instance: a cancelled 10:00 booking whose time was booked
      again by another patient. */
  lemma RestoreCanDoubleBook()
    ensures var a := Appointment("a", "p1", "d", 0, 10 * 60 * MinuteMs, 10 * 60 * MinuteMs + 30 * MinuteMs, Video, None, Cancelled);
            var b := a.(id := "b", patientId := "p2", status := Scheduled);
            && Consistent([a, b])
            && SetStatus([a, b], "a", Scheduled).Ok?
            && !NoDoubleBooking(SetStatus([a, b], "a", Scheduled).body)
  {
    var a := Appointment("a", "p1", "d", 0, 10 * 60 * MinuteMs, 10 * 60 * MinuteMs + 30 * MinuteMs, Video, None, Cancelled);
    var b := a.(id := "b", patientId := "p2", status := Scheduled);
    var r := SetStatus([a, b], "a", Scheduled).body;
    assert r[0] == a.(status := Scheduled) && r[1] == b;
    assert Competing(r[0], r[1]);
  }
}
