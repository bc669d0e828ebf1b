/** The admin "add doctor" page: its state, the field and row handlers, the
    required-field check and payload of the submission, and the default
    Monday-to-Friday working hours posted for a newly created doctor. */
module AddDoctorPage {

  import opened Values
  import opened DoctorRows
  import TimeSlotsRoute

  const PlaceholderImage := "/placeholder.svg?height=300&width=300"
  const DefaultStart := "09:00"
  const DefaultEnd := "17:00"

  /** The page's text inputs; fee, rating and review count are kept as the
      strings the inputs hold. */
  datatype DoctorData = DoctorData(
    name: string,
    specialty: string,
    bio: string,
    languages: string,
    consultationFee: string,
    rating: string,
    reviewCount: string,
    imageUrl: string)

  const InitialDoctor := DoctorData("", "", "", "", "100", "5", "0", "")

  /** The `name` attribute of a doctor input. */
  datatype DoctorField = Name | Specialty | Bio | LanguagesField | ConsultationFee | Rating | ReviewCount | ImageUrl

  function DoctorValue(d: DoctorData, f: DoctorField): string {
    match f
    case Name => d.name
    case Specialty => d.specialty
    case Bio => d.bio
    case LanguagesField => d.languages
    case ConsultationFee => d.consultationFee
    case Rating => d.rating
    case ReviewCount => d.reviewCount
    case ImageUrl => d.imageUrl
  }

  /** `{ ...prev, [name]: value }`: only the named input changes. */
  function SetDoctor(d: DoctorData, f: DoctorField, v: string): (r: DoctorData)
    ensures DoctorValue(r, f) == v
    ensures forall g :: g != f ==> DoctorValue(r, g) == DoctorValue(d, g)
  {
    match f
    case Name => d.(name := v)
    case Specialty => d.(specialty := v)
    case Bio => d.(bio := v)
    case LanguagesField => d.(languages := v)
    case ConsultationFee => d.(consultationFee := v)
    case Rating => d.(rating := v)
    case ReviewCount => d.(reviewCount := v)
    case ImageUrl => d.(imageUrl := v)
  }

  datatype Page = Page(doctor: DoctorData, education: seq<Education>, experience: seq<Experience>)

  /** The page opens with empty inputs and one blank row in each list. */
  const Start := Page(InitialDoctor, [BlankEducation], [BlankExperience])

  /** The user's actions on the page. */
  datatype Event =
    | DoctorInput(field: DoctorField, value: string)
    | EducationInput(index: int, efield: EducationField, value: string)
    | ExperienceInput(index: int, xfield: ExperienceField, value: string)
    | AddEducation
    | AddExperience
    | RemoveEducation(index: int)
    | RemoveExperience(index: int)

  /** Inputs exist only for rows on screen. */
  predicate OnScreen(p: Page, ev: Event) {
    && (ev.EducationInput? ==> 0 <= ev.index < |p.education|)
    && (ev.ExperienceInput? ==> 0 <= ev.index < |p.experience|)
  }

  /** One handler: each touches only its own part of the page. */
  function Apply(p: Page, ev: Event): (r: Page)
    requires OnScreen(p, ev)
    ensures !ev.DoctorInput? ==> r.doctor == p.doctor
    ensures !(ev.EducationInput? || ev.AddEducation? || ev.RemoveEducation?) ==> r.education == p.education
    ensures !(ev.ExperienceInput? || ev.AddExperience? || ev.RemoveExperience?) ==> r.experience == p.experience
    ensures |p.education| >= 1 ==> |r.education| >= 1
    ensures |p.experience| >= 1 ==> |r.experience| >= 1
  {
    match ev
    case DoctorInput(f, v) => p.(doctor := SetDoctor(p.doctor, f, v))
    case EducationInput(i, f, v) => p.(education := EditEducation(p.education, i, f, v))
    case ExperienceInput(i, f, v) => p.(experience := EditExperience(p.experience, i, f, v))
    case AddEducation => p.(education := Append(p.education, BlankEducation))
    case AddExperience => p.(experience := Append(p.experience, BlankExperience))
    case RemoveEducation(i) => p.(education := GuardedRemove(p.education, i))
    case RemoveExperience(i) => p.(experience := GuardedRemove(p.experience, i))
  }

  ghost predicate Playable(p: Page, evs: seq<Event>)
    decreases |evs|
  {
    |evs| == 0 || (OnScreen(p, evs[0]) && Playable(Apply(p, evs[0]), evs[1..]))
  }

  ghost function Run(p: Page, evs: seq<Event>): Page
    requires Playable(p, evs)
    decreases |evs|
  {
    if |evs| == 0 then p else Run(Apply(p, evs[0]), evs[1..])
  }

  /** Whatever the user does, both row lists keep at least one row. */
  lemma {:induction false} RowListsNeverEmpty(p: Page, evs: seq<Event>)
    requires |p.education| >= 1 && |p.experience| >= 1
    requires Playable(p, evs)
    ensures |Run(p, evs).education| >= 1 && |Run(p, evs).experience| >= 1
    decreases |evs|
  {
    if |evs| > 0 {
      RowListsNeverEmpty(Apply(p, evs[0]), evs[1..]);
    }
  }

  // ---------------------------------------------------------------------------
  // Submission
  // ---------------------------------------------------------------------------

  /** The JSON body sent to the doctors route. */
  datatype Payload = Payload(
    name: string,
    specialty: string,
    bio: string,
    education: seq<Education>,
    experience: seq<Experience>,
    languages: seq<string>,
    consultationFee: string,
    rating: string,
    reviewCount: string,
    imageUrl: string)

  /** The payload of a submission, or `None` when the name or the specialty
      is empty (the page then shows an error and sends nothing). */
  function Submit(p: Page): (r: Option<Payload>)
    ensures r.None? <==> p.doctor.name == "" || p.doctor.specialty == ""
    ensures r.Some? ==> && r.value.name == p.doctor.name && r.value.specialty == p.doctor.specialty
                        && r.value.bio == p.doctor.bio
                        && r.value.education == p.education && r.value.experience == p.experience
                        && r.value.consultationFee == p.doctor.consultationFee
                        && r.value.rating == p.doctor.rating && r.value.reviewCount == p.doctor.reviewCount
    ensures r.Some? ==> r.value.languages == Languages(p.doctor.languages)
    ensures r.Some? ==> r.value.imageUrl != "" && (p.doctor.imageUrl != "" ==> r.value.imageUrl == p.doctor.imageUrl)
    ensures r.Some? && p.doctor.imageUrl == "" ==> r.value.imageUrl == PlaceholderImage
  {
    var d := p.doctor;
    if d.name == "" || d.specialty == "" then None
    else
      Some(Payload(d.name, d.specialty, d.bio, p.education, p.experience, Languages(d.languages),
                   d.consultationFee, d.rating, d.reviewCount,
                   if d.imageUrl == "" then PlaceholderImage else d.imageUrl))
  }

  /** The default working hours of a new doctor: Monday (1) to Friday (5),
      09:00 to 17:00. */
  function DefaultHours(doctorId: string): (r: seq<TimeSlotsRoute.SlotBody>)
    ensures |r| == 5
    ensures forall i :: 0 <= i < 5 ==>
      r[i] == TimeSlotsRoute.SlotBody(doctorId, TimeSlotsRoute.Int(i + 1), DefaultStart, DefaultEnd)
  {
    seq(5, i requires 0 <= i < 5 => TimeSlotsRoute.SlotBody(doctorId, TimeSlotsRoute.Int(i + 1), DefaultStart, DefaultEnd))
  }

  /** The working-hours POSTs one after the other, their responses ignored;
      `ids` are the ids the store generates. */
  function PostAll(t: seq<TimeSlotsRoute.TimeSlot>, bodies: seq<TimeSlotsRoute.SlotBody>, ids: seq<string>): (r: seq<TimeSlotsRoute.TimeSlot>)
    requires |ids| == |bodies|
    ensures (forall i :: 0 <= i < |bodies| ==> bodies[i].day.Int?) ==>
      && |r| == |t| + |bodies| && r[..|t|] == t
      && forall i :: 0 <= i < |bodies| ==>
           r[|t| + i] == TimeSlotsRoute.TimeSlot(ids[i], bodies[i].doctorId, bodies[i].day.n, bodies[i].startTime, bodies[i].endTime, true)
    decreases |bodies|
  {
    if |bodies| == 0 then t
    else PostAll(TimeSlotsRoute.Post(t, bodies[0], ids[0]).table, bodies[1..], ids[1..])
  }

  /** After a submission: nothing is stored when the page refuses the form or
      the doctors route fails (`created` is `None`); otherwise the created
      doctor gets its default hours. `created` stands for the doctors route's
      answer, which is not part of this model. */
  function AfterSubmit(p: Page, t: seq<TimeSlotsRoute.TimeSlot>, created: Option<string>, ids: seq<string>): (r: seq<TimeSlotsRoute.TimeSlot>)
    requires |ids| == 5
    ensures Submit(p).None? || created.None? ==> r == t
  {
    if Submit(p).None? || created.None? then t
    else PostAll(t, DefaultHours(created.value), ids)
  }

  /** A created doctor ends up with exactly five new working-hours rows, one
      per weekday 1..5, each 09:00-17:00 and available; earlier rows stay. */
  lemma CreatedDoctorGetsWeekdayHours(p: Page, t: seq<TimeSlotsRoute.TimeSlot>, doctorId: string, ids: seq<string>)
    requires |ids| == 5
    requires Submit(p).Some?
    ensures var r := AfterSubmit(p, t, Some(doctorId), ids);
      && |r| == |t| + 5 && r[..|t|] == t
      && forall i :: 0 <= i < 5 ==>
           r[|t| + i] == TimeSlotsRoute.TimeSlot(ids[i], doctorId, i + 1, DefaultStart, DefaultEnd, true)
  {
  }
}
