/** The working-hours route: POST stores one weekly opening range of a doctor
    (always marked available), GET lists a doctor's ranges, optionally for one
    weekday, ordered by weekday and then by start time. Start and end times are
    "HH:MM" strings compared as strings. */
module TimeSlotsRoute {

  import opened Values
  import opened Text
  import Sorting

  const DoctorIdRequired := "Doctor ID is required"
  const CreateFailed := "Failed to create time slot"
  const FetchFailed := "Failed to fetch time slots"

  /** What JavaScript's `Number(x)` gives, for the integer-valued cases the
      model keeps: an integer, or NaN. */
  datatype Num = NaN | Int(n: int)

  /** One stored working-hours row; `day` is the weekday index. */
  datatype TimeSlot = TimeSlot(
    id: string,
    doctorId: string,
    day: int,
    startTime: string,
    endTime: string,
    isAvailable: bool)

  /** The JSON body of a POST, with `day` already converted by `Number`. */
  datatype SlotBody = SlotBody(doctorId: string, day: Num, startTime: string, endTime: string)

  /** The stored rows after a request together with the response. */
  datatype Outcome = Outcome(response: Response<TimeSlot>, table: seq<TimeSlot>)

  /** POST: a new row with the body's fields, marked available. The store
      refuses a NaN weekday, which the route reports as a server error.
      `newId` is the id the store generates. */
  function Post(t: seq<TimeSlot>, b: SlotBody, newId: string): (r: Outcome)
    ensures b.day.NaN? ==> r == Outcome(Fail(500, CreateFailed), t)
    ensures b.day.Int? ==>
      && r.response == Ok(200, TimeSlot(newId, b.doctorId, b.day.n, b.startTime, b.endTime, true))
      && r.table == t + [r.response.body]
  {
    match b.day
    case NaN => Outcome(Fail(500, CreateFailed), t)
    case Int(d) =>
      var row := TimeSlot(newId, b.doctorId, d, b.startTime, b.endTime, true);
      Outcome(Ok(200, row), t + [row])
  }

  /** The query string of a GET: `doctorId`, and `day` converted by `Number`
      whenever the parameter is present (even when it is empty). */
  datatype Query = Query(doctorId: Option<string>, day: Option<Num>)

  /** The row belongs to the requested doctor and, if a day is given, to that day. */
  predicate Matches(q: Query, s: TimeSlot) {
    && q.doctorId.Some? && s.doctorId == q.doctorId.value
    && (q.day.Some? ==> q.day.value.Int? && s.day == q.day.value.n)
  }

  function Select(t: seq<TimeSlot>, q: Query): (r: seq<TimeSlot>)
    ensures forall s :: multiset(r)[s] == (if Matches(q, s) then multiset(t)[s] else 0)
  {
    if |t| == 0 then []
    else
      assert t == [t[0]] + t[1..];
      (if Matches(q, t[0]) then [t[0]] else []) + Select(t[1..], q)
  }

  /** Weekday ascending, then start time ascending as strings. */
  predicate SlotOrder(a: TimeSlot, b: TimeSlot) {
    a.day < b.day || (a.day == b.day && LexLeq(a.startTime, b.startTime))
  }

  lemma SlotOrderIsTotalPreorder()
    ensures Sorting.TotalPreorder(SlotOrder)
  {
    forall a: TimeSlot, b: TimeSlot ensures SlotOrder(a, b) || SlotOrder(b, a) {
      LexLeqTotal(a.startTime, b.startTime);
    }
    forall a: TimeSlot, b: TimeSlot, c: TimeSlot | SlotOrder(a, b) && SlotOrder(b, c)
      ensures SlotOrder(a, c)
    {
      if a.day == b.day == c.day {
        LexLeqTransitive(a.startTime, b.startTime, c.startTime);
      }
    }
  }

  /** GET: without a doctor id the request is refused with 400; otherwise the
      answer is exactly the doctor's rows (for the day, if one is given) in
      (day, startTime) order. A NaN day is refused by the store. */
  function Get(t: seq<TimeSlot>, q: Query): (r: Response<seq<TimeSlot>>)
    ensures !Filled(q.doctorId) ==> r == Fail(400, DoctorIdRequired)
    ensures Filled(q.doctorId) && q.day == Some(NaN) ==> r == Fail(500, FetchFailed)
    ensures r.Ok? <==> Filled(q.doctorId) && q.day != Some(NaN)
    ensures r.Ok? ==> r.status == 200 && Sorting.Sorted(r.body, SlotOrder)
    ensures r.Ok? ==> forall s :: multiset(r.body)[s] == (if Matches(q, s) then multiset(t)[s] else 0)
  {
    if !Filled(q.doctorId) then Fail(400, DoctorIdRequired)
    else if q.day == Some(NaN) then Fail(500, FetchFailed)
    else
      SlotOrderIsTotalPreorder();
      Ok(200, Sorting.Sort(Select(t, q), SlotOrder))
  }

  /** Every request ends in the created row, the filtered list, or an error
      object with a 4xx or 5xx status. */
  lemma OnlyRowsOrErrors(t: seq<TimeSlot>, b: SlotBody, newId: string, q: Query)
    ensures var p := Post(t, b, newId).response;
            p.Ok? ==> p.status == 200 && p.body.isAvailable
    ensures var p := Post(t, b, newId).response;
            p.Fail? ==> 400 <= p.status < 600
    ensures var g := Get(t, q);
            g.Ok? ==> g.status == 200 && forall s :: s in g.body ==> s in t && Matches(q, s)
    ensures var g := Get(t, q);
            g.Fail? ==> 400 <= g.status < 600
  {
    var g := Get(t, q);
    if g.Ok? {
      forall s | s in g.body ensures s in t && Matches(q, s) {
        assert multiset(g.body)[s] > 0;
      }
    }
  }

  // ---------------------------------------------------------------------------
  // Clock strings
  // ---------------------------------------------------------------------------

  /** A zero-padded 24-hour "HH:MM" string. */
  predicate ClockString(s: string) {
    && |s| == 5
    && IsDigit(s[0]) && IsDigit(s[1]) && s[2] == ':'
    && '0' <= s[3] <= '5' && IsDigit(s[4])
  }

  /** The minute of the day a clock string denotes. */
  function MinuteOfDay(s: string): nat
    requires ClockString(s)
  {
    (10 * DigitValue(s[0]) + DigitValue(s[1])) * 60 + 10 * DigitValue(s[3]) + DigitValue(s[4])
  }

  /** For zero-padded clock strings the string order the store sorts by is the
      chronological order. */
  lemma ClockOrderIsChronological(a: string, b: string)
    requires ClockString(a) && ClockString(b)
    ensures LexLeq(a, b) <==> MinuteOfDay(a) <= MinuteOfDay(b)
  {
    assert LexLeq(a, b) == (a[0] < b[0] || (a[0] == b[0] && LexLeq(a[1..], b[1..])));
    assert a[1..][0] == a[1] && b[1..][0] == b[1] && a[1..][1..] == a[2..] && b[1..][1..] == b[2..];
    assert LexLeq(a[1..], b[1..]) == (a[1] < b[1] || (a[1] == b[1] && LexLeq(a[2..], b[2..])));
    assert a[2..][0] == ':' == b[2..][0] && a[2..][1..] == a[3..] && b[2..][1..] == b[3..];
    assert LexLeq(a[2..], b[2..]) == LexLeq(a[3..], b[3..]);
    assert a[3..][0] == a[3] && b[3..][0] == b[3] && a[3..][1..] == a[4..] && b[3..][1..] == b[4..];
    assert LexLeq(a[3..], b[3..]) == (a[3] < b[3] || (a[3] == b[3] && LexLeq(a[4..], b[4..])));
    assert a[4..] == [a[4]] && b[4..] == [b[4]];
    assert LexLeq(a[4..], b[4..]) == (a[4] <= b[4]);
  }
}
