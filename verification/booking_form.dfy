/** The three-step booking wizard: step 1 picks the appointment type, a date and
    a time slot, step 2 collects the patient's contact details, step 3 shows a
    summary and submits. On submit the chosen 12-hour slot text is turned into
    a 24-hour local timestamp string, the end is put 30 minutes after the start,
    the type key is mapped to the appointment type enumeration, and the body is
    posted to the appointments route. */
module BookingForm {

  import opened Values
  import opened Text
  import opened Ledger
  import opened AppointmentsRoute

  /** The fixed patient id the form sends for every booking. */
  const MockPatientId := "64f5a53e9d312a1d34e9fc68"

  /** The fixed list of time-slot buttons. */
  const AvailableTimeSlots: seq<string> := [
    "09:00 AM", "09:30 AM", "10:00 AM", "10:30 AM", "11:00 AM", "11:30 AM",
    "02:00 PM", "02:30 PM", "03:00 PM", "03:30 PM", "04:00 PM", "04:30 PM"]

  /** The values of the three type radio buttons. */
  const RadioValues: seq<string> := ["video", "phone", "in-person"]

  const HalfHourMs: int := 30 * MinuteMs

  datatype BookingData = BookingData(
    appointmentType: string,
    date: string,
    timeSlot: string,
    name: string,
    phone: string,
    email: string,
    notes: string)

  const InitialData := BookingData("video", "", "", "", "", "", "")

  /** The fields of the booking data, one per input name. */
  datatype Field = TypeField | DateField | SlotField | NameField | PhoneField | EmailField | NotesField

  function FieldValue(d: BookingData, f: Field): string {
    match f
    case TypeField => d.appointmentType
    case DateField => d.date
    case SlotField => d.timeSlot
    case NameField => d.name
    case PhoneField => d.phone
    case EmailField => d.email
    case NotesField => d.notes
  }

  /** The input, radio and slot handlers: the named field takes the new value
      and every other field keeps its value. */
  function SetField(d: BookingData, f: Field, v: string): (r: BookingData)
    ensures FieldValue(r, f) == v
    ensures forall g :: g != f ==> FieldValue(r, g) == FieldValue(d, g)
  {
    match f
    case TypeField => d.(appointmentType := v)
    case DateField => d.(date := v)
    case SlotField => d.(timeSlot := v)
    case NameField => d.(name := v)
    case PhoneField => d.(phone := v)
    case EmailField => d.(email := v)
    case NotesField => d.(notes := v)
  }

  // ---------------------------------------------------------------------------
  // The wizard
  // ---------------------------------------------------------------------------

  datatype Wizard = Wizard(step: int, data: BookingData)

  const Start := Wizard(1, InitialData)

  /** What the user does: edit a field, press Continue, or press Back. */
  datatype Event = Edit(field: Field, value: string) | Continue | Back

  /** Step 1's Continue button is enabled. */
  predicate Step1Ready(d: BookingData) {
    d.appointmentType != "" && d.date != "" && d.timeSlot != ""
  }

  /** Step 2's Continue button is enabled. */
  predicate Step2Ready(d: BookingData) {
    d.name != "" && d.phone != "" && d.email != ""
  }

  /** The controls each step renders: type radios, the date input and (once a
      date is set) the slot buttons on step 1; the contact inputs on step 2;
      Continue when its gate is open; Back on steps 2 and 3. */
  predicate Offered(w: Wizard, ev: Event) {
    match ev
    case Edit(f, v) =>
      || (w.step == 1 && f == TypeField && v in RadioValues)
      || (w.step == 1 && f == DateField)
      || (w.step == 1 && f == SlotField && w.data.date != "" && v in AvailableTimeSlots)
      || (w.step == 2 && (f == NameField || f == PhoneField || f == EmailField || f == NotesField))
    case Continue => (w.step == 1 && Step1Ready(w.data)) || (w.step == 2 && Step2Ready(w.data))
    case Back => w.step == 2 || w.step == 3
  }

  /** The effect of an event: Continue moves one step on, Back one step back,
      an edit changes the booking data only. */
  function Apply(w: Wizard, ev: Event): (r: Wizard)
    ensures ev.Continue? ==> r.step == w.step + 1 && r.data == w.data
    ensures ev.Back? ==> r.step == w.step - 1 && r.data == w.data
    ensures ev.Edit? ==> r.step == w.step && FieldValue(r.data, ev.field) == ev.value
    ensures ev.Edit? ==> forall g :: g != ev.field ==> FieldValue(r.data, g) == FieldValue(w.data, g)
  {
    match ev
    case Edit(f, v) => w.(data := SetField(w.data, f, v))
    case Continue => w.(step := w.step + 1)
    case Back => w.(step := w.step - 1)
  }

  /** What holds on every screen the user can reach: the step is 1, 2 or 3,
      the type is one of the radio values, a chosen slot is one of the buttons,
      and every step past a gate still satisfies that gate. */
  ghost predicate Inv(w: Wizard) {
    && 1 <= w.step <= 3
    && w.data.appointmentType in RadioValues
    && (w.data.timeSlot == "" || w.data.timeSlot in AvailableTimeSlots)
    && (w.step >= 2 ==> Step1Ready(w.data))
    && (w.step == 3 ==> Step2Ready(w.data))
  }

  lemma StartInv()
    ensures Inv(Start)
  {
  }

  lemma {:induction false} ApplyKeepsInv(w: Wizard, ev: Event)
    requires Inv(w) && Offered(w, ev)
    ensures Inv(Apply(w, ev))
  {
    var r := Apply(w, ev);
    if ev.Edit? {
      assert w.step == 1 || w.step == 2;
      assert FieldValue(r.data, TypeField) == r.data.appointmentType;
      assert FieldValue(r.data, SlotField) == r.data.timeSlot;
      if w.step == 2 {
        assert r.data.appointmentType == w.data.appointmentType;
        assert r.data.date == w.data.date && r.data.timeSlot == w.data.timeSlot;
      }
    }
  }

  /** A sequence of events each of which the screen offered when it happened. */
  ghost predicate Allowed(w: Wizard, evs: seq<Event>)
    decreases |evs|
  {
    |evs| == 0 || (Offered(w, evs[0]) && Allowed(Apply(w, evs[0]), evs[1..]))
  }

  function Run(w: Wizard, evs: seq<Event>): Wizard
    decreases |evs|
  {
    if |evs| == 0 then w else Run(Apply(w, evs[0]), evs[1..])
  }

  /** Whatever the user does, the wizard stays on steps 1..3, and the summary
      step is only shown with a type, a date, a slot, a name, a phone number
      and an email filled in. */
  lemma {:induction false} RunKeepsInv(w: Wizard, evs: seq<Event>)
    requires Inv(w) && Allowed(w, evs)
    ensures Inv(Run(w, evs))
    decreases |evs|
  {
    if |evs| > 0 {
      ApplyKeepsInv(w, evs[0]);
      RunKeepsInv(Apply(w, evs[0]), evs[1..]);
    }
  }

  // ---------------------------------------------------------------------------
  // Submission
  // ---------------------------------------------------------------------------

  /** The 12-hour to 24-hour conversion: PM before 12 adds 12, 12 AM is 0, and
      every other hour (and a NaN hour) is left as it is. */
  function To24(hour: Option<nat>, period: string): (r: Option<nat>)
    ensures hour.None? ==> r.None?
    ensures hour.Some? && period == "PM" && hour.value < 12 ==> r == Some(hour.value + 12)
    ensures hour.Some? && period == "AM" && hour.value == 12 ==> r == Some(0)
    ensures hour.Some? && !(period == "PM" && hour.value < 12) && !(period == "AM" && hour.value == 12) ==> r == hour
  {
    match hour
    case None => None
    case Some(h) =>
      if period == "PM" && h < 12 then Some(h + 12)
      else if period == "AM" && h == 12 then Some(0)
      else Some(h)
  }

  predicate IsPeriod(p: string) {
    p == "AM" || p == "PM"
  }

  /** The 12-hour reading of a 24-hour hour: the inverse of `To24`. */
  function To12(h: nat): (nat, string)
    requires h < 24
  {
    (if h % 12 == 0 then 12 else h % 12, if h < 12 then "AM" else "PM")
  }

  /** On hours 1..12 with AM or PM the conversion lands in 0..23, and it is a
      bijection between the two clocks. */
  lemma To24IsClockBijection(hour: nat, period: string, h: nat)
    ensures 1 <= hour <= 12 && IsPeriod(period) ==>
      && To24(Some(hour), period).Some?
      && To24(Some(hour), period).value < 24
      && To12(To24(Some(hour), period).value) == (hour, period)
    ensures h < 24 ==> To24(Some(To12(h).0), To12(h).1) == Some(h)
  {
  }

  /** `hour24.toString().padStart(2, "0")`, with NaN printed as "NaN". */
  function HourText(h: Option<nat>): string {
    match h
    case None => "NaN"
    case Some(n) => PadStart2(Decimal(n))
  }

  /** The local start-time string `date + "T" + HH + ":" + MM + ":00"` built from
      a slot label such as "02:30 PM". A slot without a period reads as one
      whose period is neither AM nor PM; one without a colon has the minute
      `undefined`. */
  function SlotStart(date: string, slot: string): string {
    var parts := Split(slot, ' ');
    var period := if |parts| > 1 then parts[1] else "";
    var hm := Split(parts[0], ':');
    var minute := if |hm| > 1 then hm[1] else "undefined";
    date + "T" + HourText(To24(ParseInt(hm[0]), period)) + ":" + minute + ":00"
  }

  /** A slot label "hh:mm AM" or "hh:mm PM" with a two-digit hour 01..12. */
  predicate SlotLabel(s: string) {
    && |s| == 8
    && IsDigit(s[0]) && IsDigit(s[1]) && s[2] == ':' && IsDigit(s[3]) && IsDigit(s[4])
    && s[5] == ' ' && IsPeriod(s[6..])
    && 1 <= Value(s[..2]) <= 12
  }

  /** For a well-shaped slot the start string carries the converted hour as
      exactly two digits and the slot's own minutes. */
  lemma SlotStartOfLabel(date: string, slot: string)
    requires SlotLabel(slot)
    ensures var h := To24(Some(Value(slot[..2])), slot[6..]).value;
            && h < 24
            && |HourText(Some(h))| == 2
            && SlotStart(date, slot) == date + "T" + HourText(Some(h)) + ":" + slot[3..5] + ":00"
  {
    SplitLabel(slot);
    assert ParseInt(slot[..2]) == Some(Value(slot[..2]));
    var period := slot[6..];
    To24IsClockBijection(Value(slot[..2]), period, 0);
    TwoDigits(To24(Some(Value(slot[..2])), period).value);
  }

  /** A slot label splits at its blank into time and period, and its time
      splits at the colon into hour and minutes. */
  lemma SplitLabel(slot: string)
    requires SlotLabel(slot)
    ensures Split(slot, ' ') == [slot[..5], slot[6..]]
    ensures Split(slot[..5], ':') == [slot[..2], slot[3..5]]
  {
    var time := slot[..5];
    var period := slot[6..];
    assert slot == time + [' '] + period;
    assert ' ' !in time;
    assert ' ' !in period;
    SplitAfterPiece(time, ' ', period);
    SplitNoSeparator(period, ' ');
    assert time == slot[..2] + [':'] + slot[3..5];
    assert ':' !in slot[..2] && ':' !in slot[3..5];
    SplitAfterPiece(slot[..2], ':', slot[3..5]);
    SplitNoSeparator(slot[3..5], ':');
  }

  /** The number the first two digits of a string denote. */
  lemma HourValue(s: string)
    requires |s| >= 2 && IsDigit(s[0]) && IsDigit(s[1])
    ensures Value(s[..2]) == 10 * DigitValue(s[0]) + DigitValue(s[1])
  {
    var p := s[..2];
    assert p[..|p| - 1] == [s[0]] && p[|p| - 1] == s[1];
    assert [s[0]][..0] == [];
    assert Value([s[0]]) == DigitValue(s[0]);
  }

  /** Every slot button's label is well shaped, so every booking starts at a
      two-digit 24-hour time with the slot's minutes. */
  lemma AvailableSlotsAreLabels()
    ensures forall i :: 0 <= i < |AvailableTimeSlots| ==> SlotLabel(AvailableTimeSlots[i])
  {
    forall i | 0 <= i < |AvailableTimeSlots|
      ensures SlotLabel(AvailableTimeSlots[i])
    {
      HourValue(AvailableTimeSlots[i]);
    }
  }

  /** The three type keys map to their enumeration values; any other key maps
      to nothing. */
  function TypeMap(key: string): (r: Option<Kind>)
    ensures forall k :: r == Some(k) <==> TypeKey(k) == key
  {
    if key == "video" then Some(Video)
    else if key == "phone" then Some(Phone)
    else if key == "in-person" then Some(InPerson)
    else None
  }

  /** The radio value of each appointment type. */
  function TypeKey(k: Kind): string {
    match k
    case Video => "video"
    case Phone => "phone"
    case InPerson => "in-person"
  }

  /** The end of a booking: thirty minutes after its start. */
  function EndTime(start: int): (e: int)
    ensures e - start == HalfHourMs
  {
    start + HalfHourMs
  }

  /** The body the form posts. `dateMs` and `startMs` are the timestamps the
      date string and `SlotStart` denote; an unmapped type key is left out of
      the body, as `undefined` is when the body is serialised. */
  function RequestBody(doctorId: string, d: BookingData, dateMs: int, startMs: int): PostBody {
    PostBody(
      Some(MockPatientId), Some(doctorId), Some(dateMs), Some(startMs), Some(EndTime(startMs)),
      match TypeMap(d.appointmentType) case Some(k) => Some(KindName(k)) case None => None,
      Some(d.notes),
      Some(PatientInfo(d.name, d.phone, d.email)))
  }

  /** A submission from the summary step always passes the route's presence
      check with a known type and a non-empty interval: the only way the route
      can refuse it is a conflict, and the interval check the route lacks would
      change nothing for it. */
  lemma SubmissionIsComplete(doctorId: string, w: Wizard, dateMs: int, startMs: int, l: seq<Appointment>, newId: string)
    requires Inv(w) && w.step == 3 && doctorId != ""
    ensures var b := RequestBody(doctorId, w.data, dateMs, startMs);
            && HasRequiredFields(b)
            && WellFormedRequest(b)
            && ParseKind(b.kind.value).Some?
            && (Post(l, b, newId).response.Ok? <==> !Conflicts(l, b))
            && PostChecked(l, b, newId) == Post(l, b, newId)
  {
    var k := TypeMap(w.data.appointmentType);
    assert k.Some?;
    assert ParseKind(KindName(k.value)) == Some(k.value);
  }
}
