/** The appointments API route: POST books an appointment after checking the
    required fields and looking for a conflicting booking, GET lists the
    appointments matching optional filters, ordered by date.

    The store is a sequence of appointment rows; a POST returns the response
    together with the store after the request. Requests are taken one at a
    time: the conflict lookup and the insert are not atomic in the route, and
    concurrent requests are not modelled. */
module AppointmentsRoute {

  import opened Values
  import opened Ledger
  import Sorting

  const MissingFields := "Missing required fields"
  const SlotTaken := "This time slot is already booked"
  const CreateFailed := "Failed to create appointment"
  const FetchFailed := "Failed to fetch appointments"
  const BadInterval := "End time must be after start time"

  /** Extra patient details the booking form sends; the route ignores them. */
  datatype PatientInfo = PatientInfo(name: string, phone: string, email: string)

  /** The JSON body of a POST. Timestamps are already parsed to milliseconds;
      `None` stands for a field that is absent or the empty string. */
  datatype PostBody = PostBody(
    patientId: Option<string>,
    doctorId: Option<string>,
    date: Option<int>,
    startTime: Option<int>,
    endTime: Option<int>,
    kind: Option<string>,
    notes: Option<string>,
    patientInfo: Option<PatientInfo>)

  /** The store after a request together with the response sent back. */
  datatype Outcome = Outcome(response: Response<Appointment>, ledger: seq<Appointment>)

  /** All six required fields are present and non-empty. */
  predicate HasRequiredFields(b: PostBody) {
    && Filled(b.patientId) && Filled(b.doctorId) && b.date.Some?
    && b.startTime.Some? && b.endTime.Some? && Filled(b.kind)
  }

  /** The route's conflict test between an existing `[S, E]` and the requested
      `[s, e]`: the request starts inside the existing one, ends inside it, or
      contains it. */
  predicate ThreeClause(S: int, E: int, s: int, e: int) {
    || (S <= s && E > s)
    || (S < e && E >= e)
    || (S >= s && E <= e)
  }

  /** For non-empty intervals the three clauses say exactly that the half-open
      intervals overlap. */
  lemma ThreeClauseIsOverlap(S: int, E: int, s: int, e: int)
    requires S < E && s < e
    ensures ThreeClause(S, E, s, e) <==> Overlap(S, E, s, e)
  {
  }

  /** Whatever the intervals, empty or reversed ones included, half-open
      overlap is always caught by the three clauses. */
  lemma OverlapImpliesThreeClause(S: int, E: int, s: int, e: int)
    ensures Overlap(S, E, s, e) ==> ThreeClause(S, E, s, e)
  {
  }

  /** An existing appointment ending when the request starts does not conflict. */
  lemma BackToBackDoesNotConflict(S: int, E: int, e: int)
    requires S < E < e
    ensures !ThreeClause(S, E, E, e)
  {
  }

  /** A request for exactly an existing interval always conflicts with it, even
      when the interval is empty or reversed. */
  lemma IdenticalIntervalConflicts(s: int, e: int)
    ensures ThreeClause(s, e, s, e)
  {
  }

  /** Whether the existing row `a` blocks a request for `doctorId` on `date`
      over `[s, e]`: only a scheduled appointment of the same doctor on the
      same date can. */
  predicate Blocks(a: Appointment, doctorId: string, date: int, s: int, e: int) {
    a.doctorId == doctorId && a.date == date && a.status == Scheduled && ThreeClause(a.startTime, a.endTime, s, e)
  }

  /** The store's `findFirst`: the position of the first blocking row at or
      after `from`, if any. */
  function FindConflict(l: seq<Appointment>, doctorId: string, date: int, s: int, e: int, from: nat): (r: Option<nat>)
    requires from <= |l|
    ensures r.None? <==> forall i :: from <= i < |l| ==> !Blocks(l[i], doctorId, date, s, e)
    ensures r.Some? ==> from <= r.value < |l| && Blocks(l[r.value], doctorId, date, s, e)
    ensures r.Some? ==> forall i :: from <= i < r.value ==> !Blocks(l[i], doctorId, date, s, e)
    decreases |l| - from
  {
    if from == |l| then None
    else if Blocks(l[from], doctorId, date, s, e) then Some(from)
    else FindConflict(l, doctorId, date, s, e, from + 1)
  }

  /** Some existing row blocks the (complete) request `b`. */
  predicate Conflicts(l: seq<Appointment>, b: PostBody)
    requires HasRequiredFields(b)
  {
    exists i :: 0 <= i < |l| && Blocks(l[i], b.doctorId.value, b.date.value, b.startTime.value, b.endTime.value)
  }

  /** The row a successful POST inserts: the seven booking fields of the body,
      status `SCHEDULED`, and the id the store assigns. */
  function NewRecord(b: PostBody, k: Kind, newId: string): Appointment
    requires HasRequiredFields(b)
  {
    Appointment(newId, b.patientId.value, b.doctorId.value, b.date.value,
                b.startTime.value, b.endTime.value, k, b.notes, Scheduled)
  }

  /** POST as the route is written. `newId` is the id the store generates.
      A type string that names no appointment type passes the route's own
      checks and is refused by the store on insert, which the route reports
      as a server error. */
  function Post(l: seq<Appointment>, b: PostBody, newId: string): (r: Outcome)
    ensures !HasRequiredFields(b) ==> r == Outcome(Fail(400, MissingFields), l)
    ensures HasRequiredFields(b) && Conflicts(l, b) ==> r == Outcome(Fail(409, SlotTaken), l)
    ensures HasRequiredFields(b) && !Conflicts(l, b) && ParseKind(b.kind.value).None? ==>
      r == Outcome(Fail(500, CreateFailed), l)
    ensures r.response.Ok? <==> HasRequiredFields(b) && !Conflicts(l, b) && ParseKind(b.kind.value).Some?
    ensures r.response.Ok? ==>
      && r.response.status == 201
      && r.response.body == NewRecord(b, ParseKind(b.kind.value).value, newId)
      && r.ledger == l + [r.response.body]
    ensures r.response.Fail? ==> r.ledger == l
  {
    if !HasRequiredFields(b) then Outcome(Fail(400, MissingFields), l)
    else
      match FindConflict(l, b.doctorId.value, b.date.value, b.startTime.value, b.endTime.value, 0)
      case Some(_) => Outcome(Fail(409, SlotTaken), l)
      case None =>
        match ParseKind(b.kind.value)
        case None => Outcome(Fail(500, CreateFailed), l)
        case Some(k) =>
          var a := NewRecord(b, k, newId);
          Outcome(Ok(201, a), l + [a])
  }

  /** The request's interval is non-empty. */
  predicate WellFormedRequest(b: PostBody) {
    HasRequiredFields(b) ==> b.startTime.value < b.endTime.value
  }

  /** No POST, whatever its interval, books a time that overlaps a competing
      booking: the three clauses catch every overlap. */
  lemma {:induction false} PostKeepsNoDoubleBooking(l: seq<Appointment>, b: PostBody, newId: string)
    requires NoDoubleBooking(l)
    ensures NoDoubleBooking(Post(l, b, newId).ledger)
  {
    var r := Post(l, b, newId);
    if r.response.Ok? {
      var a := r.response.body;
      var l' := r.ledger;
      assert l' == l + [a];
      forall i, j | 0 <= i < j < |l'| && Competing(l'[i], l'[j])
        ensures !Overlap(l'[i].startTime, l'[i].endTime, l'[j].startTime, l'[j].endTime)
      {
        if j == |l| {
          assert l'[i] == l[i] && l'[j] == a;
          assert !Blocks(l[i], a.doctorId, a.date, a.startTime, a.endTime);
          OverlapImpliesThreeClause(l[i].startTime, l[i].endTime, a.startTime, a.endTime);
        } else {
          assert l'[i] == l[i] && l'[j] == l[j];
        }
      }
    }
  }

  /** Bookings through POST keep the store consistent when the requested
      interval is non-empty. The premise is needed only for the non-empty
      intervals of `ScheduledWellFormed`: no double booking arises either way. */
  lemma {:induction false} PostKeepsConsistent(l: seq<Appointment>, b: PostBody, newId: string)
    requires Consistent(l)
    requires WellFormedRequest(b)
    ensures Consistent(Post(l, b, newId).ledger)
  {
    PostKeepsNoDoubleBooking(l, b, newId);
    var r := Post(l, b, newId);
    if r.response.Ok? {
      var l' := r.ledger;
      forall i | 0 <= i < |l'| && l'[i].status == Scheduled
        ensures l'[i].startTime < l'[i].endTime
      {
        if i < |l| {
          assert l'[i] == l[i];
        }
      }
    }
  }

  /** A second POST of the same booking after a successful one is refused with
      409, whatever the interval, and leaves the store as it was. */
  lemma RepeatedPostConflicts(l: seq<Appointment>, b: PostBody, id1: string, id2: string)
    requires Post(l, b, id1).response.Ok?
    ensures Post(Post(l, b, id1).ledger, b, id2) == Outcome(Fail(409, SlotTaken), Post(l, b, id1).ledger)
  {
    var l' := Post(l, b, id1).ledger;
    var a := Post(l, b, id1).response.body;
    IdenticalIntervalConflicts(a.startTime, a.endTime);
    assert Blocks(l'[|l|], b.doctorId.value, b.date.value, b.startTime.value, b.endTime.value);
  }

  /** A row that is not scheduled, or belongs to another doctor or another
      date, never affects the answer to a POST. */
  lemma {:induction false} NonCompetingRowIgnored(l: seq<Appointment>, a: Appointment, b: PostBody, newId: string)
    requires HasRequiredFields(b)
    requires a.status != Scheduled || a.doctorId != b.doctorId.value || a.date != b.date.value
    ensures Post(l + [a], b, newId).response == Post(l, b, newId).response
  {
    var l' := l + [a];
    assert !Blocks(a, b.doctorId.value, b.date.value, b.startTime.value, b.endTime.value);
    assert Conflicts(l', b) ==> Conflicts(l, b) by {
      if Conflicts(l', b) {
        var i :| 0 <= i < |l'| && Blocks(l'[i], b.doctorId.value, b.date.value, b.startTime.value, b.endTime.value);
        assert i < |l| && l'[i] == l[i];
      }
    }
    assert Conflicts(l, b) ==> Conflicts(l', b) by {
      if Conflicts(l, b) {
        var i :| 0 <= i < |l| && Blocks(l[i], b.doctorId.value, b.date.value, b.startTime.value, b.endTime.value);
        assert l'[i] == l[i];
      }
    }
  }

  /** The route checks only that the fields are present: a reversed interval
      is booked, and the store then holds a scheduled appointment that ends
      before it starts. */
  lemma PostAcceptsReversedInterval()
    ensures var b := PostBody(Some("p"), Some("d"), Some(0), Some(12 * 60 * MinuteMs), Some(9 * 60 * MinuteMs),
                              Some("VIDEO"), None, None);
            && Post([], b, "n").response.Ok?
            && !ScheduledWellFormed(Post([], b, "n").ledger)
  {
    var b := PostBody(Some("p"), Some("d"), Some(0), Some(12 * 60 * MinuteMs), Some(9 * 60 * MinuteMs),
                      Some("VIDEO"), None, None);
    var l' := Post([], b, "n").ledger;
    assert l'[0].status == Scheduled && l'[0].startTime > l'[0].endTime;
  }

  /** What a stored reversed booking does: after a request from 11:00 to 08:00
      is booked, a request from 10:30 to 10:45 for the same doctor and date is
      refused with 409, although the two do not overlap. */
  lemma ReversedBookingRefusesDisjointRequest()
    ensures var first := PostBody(Some("p1"), Some("d"), Some(0), Some(11 * 60 * MinuteMs), Some(8 * 60 * MinuteMs),
                                  Some("VIDEO"), None, None);
            var second := PostBody(Some("p2"), Some("d"), Some(0), Some(10 * 60 * MinuteMs + 30 * MinuteMs),
                                   Some(10 * 60 * MinuteMs + 45 * MinuteMs), Some("VIDEO"), None, None);
            var l := Post([], first, "a").ledger;
            && Post([], first, "a").response.Ok?
            && Post(l, second, "b").response == Fail(409, SlotTaken)
            && !Overlap(l[0].startTime, l[0].endTime, 10 * 60 * MinuteMs + 30 * MinuteMs, 10 * 60 * MinuteMs + 45 * MinuteMs)
  {
    var first := PostBody(Some("p1"), Some("d"), Some(0), Some(11 * 60 * MinuteMs), Some(8 * 60 * MinuteMs),
                          Some("VIDEO"), None, None);
    var second := PostBody(Some("p2"), Some("d"), Some(0), Some(10 * 60 * MinuteMs + 30 * MinuteMs),
                           Some(10 * 60 * MinuteMs + 45 * MinuteMs), Some("VIDEO"), None, None);
    var l := Post([], first, "a").ledger;
    assert ParseKind("VIDEO") == Some(Video);
    assert l[0].startTime == 11 * 60 * MinuteMs && l[0].endTime == 8 * 60 * MinuteMs;
    assert Blocks(l[0], "d", 0, 10 * 60 * MinuteMs + 30 * MinuteMs, 10 * 60 * MinuteMs + 45 * MinuteMs);
  }

  /** POST with the interval check the route leaves out: after the presence
      check, a request whose end is not after its start is refused with 400. */
  function PostChecked(l: seq<Appointment>, b: PostBody, newId: string): (r: Outcome)
    ensures HasRequiredFields(b) && b.startTime.value >= b.endTime.value ==>
      r == Outcome(Fail(400, BadInterval), l)
    ensures WellFormedRequest(b) ==> r == Post(l, b, newId)
  {
    if HasRequiredFields(b) && b.startTime.value >= b.endTime.value then Outcome(Fail(400, BadInterval), l)
    else Post(l, b, newId)
  }

  /** With the interval check, and stored bookings all non-empty, a request
      is refused with 409 exactly when it overlaps a competing booking. */
  lemma CheckedConflictIsOverlap(l: seq<Appointment>, b: PostBody, newId: string)
    requires ScheduledWellFormed(l)
    ensures PostChecked(l, b, newId).response == Fail(409, SlotTaken) <==>
      && HasRequiredFields(b) && b.startTime.value < b.endTime.value
      && exists i :: 0 <= i < |l| && l[i].doctorId == b.doctorId.value && l[i].date == b.date.value
           && l[i].status == Scheduled && Overlap(l[i].startTime, l[i].endTime, b.startTime.value, b.endTime.value)
  {
    if HasRequiredFields(b) && b.startTime.value < b.endTime.value {
      var d, t, s, e := b.doctorId.value, b.date.value, b.startTime.value, b.endTime.value;
      forall i | 0 <= i < |l| && l[i].doctorId == d && l[i].date == t && l[i].status == Scheduled
        ensures Blocks(l[i], d, t, s, e) <==> Overlap(l[i].startTime, l[i].endTime, s, e)
      {
        ThreeClauseIsOverlap(l[i].startTime, l[i].endTime, s, e);
      }
    }
  }

  /** With the interval check every request, whatever its fields, keeps the
      store consistent: no double booking and no empty or reversed booking. */
  lemma PostCheckedKeepsConsistent(l: seq<Appointment>, b: PostBody, newId: string)
    requires Consistent(l)
    ensures Consistent(PostChecked(l, b, newId).ledger)
  {
    if WellFormedRequest(b) {
      PostKeepsConsistent(l, b, newId);
    }
  }

  // ---------------------------------------------------------------------------
  // GET
  // ---------------------------------------------------------------------------

  /** The query string of a GET. `date` is the parsed start of the requested
      day; `None` stands for an absent or empty parameter. */
  datatype Query = Query(
    status: Option<string>,
    kind: Option<string>,
    date: Option<int>,
    doctorId: Option<string>,
    patientId: Option<string>)

  /** The store accepts the query: every status or type filter names a value of
      its enumeration. */
  predicate ValidQuery(q: Query) {
    && (Filled(q.status) ==> ParseStatus(q.status.value).Some?)
    && (Filled(q.kind) ==> ParseKind(q.kind.value).Some?)
  }

  /** The row satisfies every filter the query supplies; the date filter is the
      one-day window `[date, date + 1 day)`. */
  predicate Matches(q: Query, a: Appointment) {
    && (Filled(q.status) ==> StatusName(a.status) == q.status.value)
    && (Filled(q.kind) ==> KindName(a.kind) == q.kind.value)
    && (q.date.Some? ==> q.date.value <= a.date < q.date.value + DayMs)
    && (Filled(q.doctorId) ==> a.doctorId == q.doctorId.value)
    && (Filled(q.patientId) ==> a.patientId == q.patientId.value)
  }

  /** The matching rows of `l`, each as often as it occurs in `l`. */
  function Select(l: seq<Appointment>, q: Query): (r: seq<Appointment>)
    ensures forall a :: multiset(r)[a] == (if Matches(q, a) then multiset(l)[a] else 0)
  {
    if |l| == 0 then []
    else
      assert l == [l[0]] + l[1..];
      (if Matches(q, l[0]) then [l[0]] else []) + Select(l[1..], q)
  }

  predicate ByDate(a: Appointment, b: Appointment) {
    a.date <= b.date
  }

  lemma ByDateIsTotalPreorder()
    ensures Sorting.TotalPreorder(ByDate)
  {
  }

  /** GET: exactly the matching rows, in ascending date order; a status or
      type filter the store does not know is a server error. */
  function Get(l: seq<Appointment>, q: Query): (r: Response<seq<Appointment>>)
    ensures r.Fail? <==> !ValidQuery(q)
    ensures r.Fail? ==> r == Fail(500, FetchFailed)
    ensures r.Ok? ==> r.status == 200 && Sorting.Sorted(r.body, ByDate)
    ensures r.Ok? ==> forall a :: multiset(r.body)[a] == (if Matches(q, a) then multiset(l)[a] else 0)
  {
    if !ValidQuery(q) then Fail(500, FetchFailed)
    else
      ByDateIsTotalPreorder();
      Ok(200, Sorting.Sort(Select(l, q), ByDate))
  }
}
