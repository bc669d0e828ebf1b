/** The admin appointment table: the tab selects the query sent to the
    appointments route, the row menu offers status changes, a status change
    is sent to the store and then applied to the local list, and each row shows
    patient details with fallbacks, a type label and a shortened id. */
module AdminAppointmentList {

  import opened Values
  import opened Text
  import opened Ledger
  import opened AppointmentsRoute
  import BookingForm

  const UnknownPatient := "Unknown Patient"
  const NotAvailable := "N/A"

  datatype Tab = UpcomingTab | TodayTab | CompletedTab | CancelledTab | AllTab

  /** The query a tab sends; `today` is the start of the current day. */
  function TabQuery(tab: Tab, today: int): Query {
    match tab
    case CompletedTab => Query(Some("COMPLETED"), None, None, None, None)
    case CancelledTab => Query(Some("CANCELLED"), None, None, None, None)
    case TodayTab => Query(None, None, Some(today), None, None)
    case UpcomingTab => Query(Some("SCHEDULED"), None, None, None, None)
    case AllTab => Query(None, None, None, None, None)
  }

  /** The appointments a tab is meant to list. "Upcoming" means scheduled,
      whatever the date. */
  predicate Shows(tab: Tab, today: int, a: Appointment) {
    match tab
    case CompletedTab => a.status == Completed
    case CancelledTab => a.status == Cancelled
    case TodayTab => today <= a.date < today + DayMs
    case UpcomingTab => a.status == Scheduled
    case AllTab => true
  }

  /** Every tab's query is accepted by the route and answers exactly the
      appointments the tab is meant to list, ordered by date. */
  lemma TabListsWhatItShows(tab: Tab, today: int, l: seq<Appointment>)
    ensures Get(l, TabQuery(tab, today)).Ok?
    ensures forall a ::
      multiset(Get(l, TabQuery(tab, today)).body)[a] == (if Shows(tab, today, a) then multiset(l)[a] else 0)
  {
    var q := TabQuery(tab, today);
    assert ParseStatus("COMPLETED") == Some(Completed);
    assert ParseStatus("CANCELLED") == Some(Cancelled);
    assert ParseStatus("SCHEDULED") == Some(Scheduled);
    forall a ensures Matches(q, a) <==> Shows(tab, today, a) {
      assert StatusName(a.status) == "COMPLETED" <==> a.status == Completed;
      assert StatusName(a.status) == "CANCELLED" <==> a.status == Cancelled;
      assert StatusName(a.status) == "SCHEDULED" <==> a.status == Scheduled;
    }
  }

  // ---------------------------------------------------------------------------
  // Rows and their display
  // ---------------------------------------------------------------------------

  datatype Patient = Patient(name: string, phone: string, email: string)

  /** One row of the table: the stored appointment with its included patient
      and doctor name, and the flattened patient fields some records carry. */
  datatype Row = Row(
    appointment: Appointment,
    patient: Option<Patient>,
    patientName: Option<string>,
    patientPhone: Option<string>,
    patientEmail: Option<string>,
    doctorName: string)

  /** `flat || nested || default`. */
  function Fallback(flat: Option<string>, nested: Option<string>, default: string): (r: string)
    ensures Filled(flat) ==> r == flat.value
    ensures !Filled(flat) && Filled(nested) ==> r == nested.value
    ensures !Filled(flat) && !Filled(nested) ==> r == default
  {
    if Filled(flat) then flat.value else if Filled(nested) then nested.value else default
  }

  /** `patient?.field`: absent when the row has no patient. */
  function Nested(p: Option<Patient>, pick: Patient -> string): Option<string> {
    match p
    case None => None
    case Some(v) => Some(pick(v))
  }

  /** The displayed patient name is never blank: the flattened name, else the
      patient's name, else "Unknown Patient". */
  function PatientName(row: Row): (r: string)
    ensures r != ""
    ensures r == UnknownPatient <== !Filled(row.patientName) && !Filled(Nested(row.patient, (p: Patient) => p.name))
  {
    Fallback(row.patientName, Nested(row.patient, (p: Patient) => p.name), UnknownPatient)
  }

  function PatientPhone(row: Row): (r: string)
    ensures r != ""
    ensures r == NotAvailable <== !Filled(row.patientPhone) && !Filled(Nested(row.patient, (p: Patient) => p.phone))
  {
    Fallback(row.patientPhone, Nested(row.patient, (p: Patient) => p.phone), NotAvailable)
  }

  function PatientEmail(row: Row): (r: string)
    ensures r != ""
    ensures r == NotAvailable <== !Filled(row.patientEmail) && !Filled(Nested(row.patient, (p: Patient) => p.email))
  {
    Fallback(row.patientEmail, Nested(row.patient, (p: Patient) => p.email), NotAvailable)
  }

  /** `type.toLowerCase().replace("_", "-")`. */
  function TypeLabel(k: Kind): string {
    ReplaceFirst(Lower(KindName(k)), '_', '-')
  }

  /** The label shown for a type is the booking form's key for it, so it maps
      back to the same type. */
  lemma TypeLabelIsFormKey(k: Kind)
    ensures TypeLabel(k) == BookingForm.TypeKey(k)
    ensures BookingForm.TypeMap(TypeLabel(k)) == Some(k)
  {
    match k
    case Video => VideoLabel();
    case Phone => PhoneLabel();
    case InPerson => InPersonLabel();
  }

  lemma VideoLabel()
    ensures TypeLabel(Video) == "video"
  {
    var low := Lower(KindName(Video));
    assert |low| == 5 && low[0] == 'v' && low[1] == 'i' && low[2] == 'd' && low[3] == 'e' && low[4] == 'o';
    assert low == "video";
  }

  lemma PhoneLabel()
    ensures TypeLabel(Phone) == "phone"
  {
    var low := Lower(KindName(Phone));
    assert |low| == 5 && low[0] == 'p' && low[1] == 'h' && low[2] == 'o' && low[3] == 'n' && low[4] == 'e';
    assert low == "phone";
  }

  lemma InPersonLabel()
    ensures TypeLabel(InPerson) == "in-person"
  {
    var low := Lower(KindName(InPerson));
    assert |low| == 9 && low[0] == 'i' && low[1] == 'n' && low[2] == '_';
    assert low[3] == 'p' && low[4] == 'e' && low[5] == 'r' && low[6] == 's' && low[7] == 'o' && low[8] == 'n';
    assert low == "in_person";
    assert ReplaceFirst(low, '_', '-') == "i" + ReplaceFirst("n_person", '_', '-');
    assert ReplaceFirst("n_person", '_', '-') == "n" + ReplaceFirst("_person", '_', '-');
  }

  /** `id.substring(0, 8)`: the first eight characters, or the whole id when
      it is shorter. */
  function ShortId(id: string): (r: string)
    ensures |r| == (if |id| < 8 then |id| else 8)
    ensures r == id[..|r|]
  {
    if |id| < 8 then id else id[..8]
  }

  // ---------------------------------------------------------------------------
  // Status changes
  // ---------------------------------------------------------------------------

  /** The menu items of a row: a scheduled appointment can be completed or
      cancelled, a cancelled one restored; completed and rescheduled ones offer
      nothing. */
  function MenuTransitions(s: Status): (r: seq<Status>)
    ensures forall t :: t in r <==> (s == Scheduled && (t == Completed || t == Cancelled)) || (s == Cancelled && t == Scheduled)
    ensures forall t :: t in r ==> t != s && t != Rescheduled
    ensures |r| > 0 <==> s == Scheduled || s == Cancelled
  {
    match s
    case Scheduled => [Completed, Cancelled]
    case Cancelled => [Scheduled]
    case Completed => []
    case Rescheduled => []
  }

  /** The local list update after a successful PATCH: the rows with the id get
      the new status, every other row and every other field stay as they were. */
  function UpdateStatus(rows: seq<Row>, id: string, s: Status): (r: seq<Row>)
    ensures |r| == |rows|
    ensures forall i :: 0 <= i < |rows| && rows[i].appointment.id != id ==> r[i] == rows[i]
    ensures forall i :: 0 <= i < |rows| && rows[i].appointment.id == id ==>
      r[i] == rows[i].(appointment := rows[i].appointment.(status := s))
  {
    if |rows| == 0 then []
    else
      var row := rows[0];
      var row' := if row.appointment.id == id then row.(appointment := row.appointment.(status := s)) else row;
      [row'] + UpdateStatus(rows[1..], id, s)
  }

  /** The appointments a list of rows shows. */
  function Appointments(rows: seq<Row>): (r: seq<Appointment>)
    ensures |r| == |rows| && forall i :: 0 <= i < |rows| ==> r[i] == rows[i].appointment
  {
    seq(|rows|, i requires 0 <= i < |rows| => rows[i].appointment)
  }

  /** The local update does to the listed appointments exactly what the store's
      update does to the same records. */
  lemma UpdateMatchesStore(rows: seq<Row>, id: string, s: Status)
    requires exists i :: 0 <= i < |rows| && rows[i].appointment.id == id
    ensures SetStatus(Appointments(rows), id, s) == Ok(200, Appointments(UpdateStatus(rows, id, s)))
  {
    var i :| 0 <= i < |rows| && rows[i].appointment.id == id;
    var l := Appointments(rows);
    assert l[i].id == id;
    var stored := SetStatus(l, id, s).body;
    var shown := Appointments(UpdateStatus(rows, id, s));
    assert |stored| == |shown|;
    forall k | 0 <= k < |stored| ensures stored[k] == shown[k] {
      var u := UpdateStatus(rows, id, s);
      assert l[k] == rows[k].appointment;
      assert shown[k] == u[k].appointment;
      if rows[k].appointment.id == id {
        assert u[k].appointment == rows[k].appointment.(status := s);
        assert stored[k] == l[k].(status := s);
      } else {
        assert u[k] == rows[k];
        assert stored[k] == l[k];
      }
    }
    assert stored == shown;
  }

  /** `handleStatusChange`: the PATCH goes to the store first; only when it
      succeeds is the local list updated. Returns the list and the store after. */
  function HandleStatusChange(rows: seq<Row>, store: seq<Appointment>, id: string, s: Status): (r: (seq<Row>, seq<Appointment>))
    ensures SetStatus(store, id, s).Fail? ==> r == (rows, store)
    ensures SetStatus(store, id, s).Ok? ==> r == (UpdateStatus(rows, id, s), SetStatus(store, id, s).body)
  {
    var resp := SetStatus(store, id, s);
    if !resp.IsOk() then (rows, store) else (UpdateStatus(rows, id, s), resp.body)
  }

  /** No two stored appointments share an id. */
  predicate UniqueIds(store: seq<Appointment>) {
    forall i, j :: 0 <= i < |store| && 0 <= j < |store| && store[i].id == store[j].id ==> i == j
  }

  /** Every row of the list shows one of the stored appointments as it is
      stored. A tab's list is such a list: a filtered, date-ordered selection
      of the store's rows. */
  predicate ListedFrom(rows: seq<Row>, store: seq<Appointment>) {
    forall k :: 0 <= k < |rows| ==> rows[k].appointment in store
  }

  /** A list taken from the store still shows stored appointments as they are
      stored after a status change, whether the change succeeds or fails: the
      same rows in the same order, each equal to the store's appointment with
      its id when ids are unique. */
  lemma HandleStatusChangeKeepsListInSync(rows: seq<Row>, store: seq<Appointment>, id: string, s: Status)
    requires ListedFrom(rows, store)
    ensures var (rows', store') := HandleStatusChange(rows, store, id, s);
            && |rows'| == |rows| && |store'| == |store|
            && (forall k :: 0 <= k < |rows| ==> rows'[k].appointment.id == rows[k].appointment.id)
            && ListedFrom(rows', store')
            && (UniqueIds(store) ==> UniqueIds(store'))
            && (UniqueIds(store) ==> forall k, j :: 0 <= k < |rows'| && 0 <= j < |store'| && store'[j].id == rows'[k].appointment.id ==>
                  store'[j] == rows'[k].appointment)
  {
    var (rows', store') := HandleStatusChange(rows, store, id, s);
    if SetStatus(store, id, s).Ok? {
      forall k | 0 <= k < |rows'| ensures rows'[k].appointment in store' {
        var j :| 0 <= j < |store| && store[j] == rows[k].appointment;
        assert store'[j] == rows'[k].appointment;
      }
      forall i, j | 0 <= i < |store'| && 0 <= j < |store'| && store'[i].id == store'[j].id ensures store[i].id == store[j].id {
        assert store'[i].id == store[i].id && store'[j].id == store[j].id;
      }
    }
    if UniqueIds(store) {
      forall k, j | 0 <= k < |rows'| && 0 <= j < |store'| && store'[j].id == rows'[k].appointment.id
        ensures store'[j] == rows'[k].appointment
      {
        var i :| 0 <= i < |store'| && store'[i] == rows'[k].appointment;
      }
    }
  }

  /** Completing or cancelling a scheduled appointment from the menu keeps the
      store free of double bookings. */
  lemma MenuCompleteOrCancelKeepsConsistent(store: seq<Appointment>, id: string, s: Status)
    requires Consistent(store)
    requires s in MenuTransitions(Scheduled)
    requires SetStatus(store, id, s).Ok?
    ensures Consistent(SetStatus(store, id, s).body)
  {
    LeavingScheduledKeepsConsistent(store, id, s);
  }
}
