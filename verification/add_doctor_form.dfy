/** The standalone doctor form component: a user id instead of a name, row
    lists that can only grow, and no required-field check before sending. */
module AddDoctorForm {

  import opened Text
  import opened DoctorRows

  /** The form's text inputs (the numeric fee, rating and review count are
      not part of this model). */
  datatype FormData = FormData(userId: string, specialty: string, bio: string, languages: string)

  datatype FormField = UserId | Specialty | Bio | LanguagesField

  function FormValue(d: FormData, f: FormField): string {
    match f
    case UserId => d.userId
    case Specialty => d.specialty
    case Bio => d.bio
    case LanguagesField => d.languages
  }

  /** `{ ...prev, [name]: value }`: only the named input changes. */
  function SetForm(d: FormData, f: FormField, v: string): (r: FormData)
    ensures FormValue(r, f) == v
    ensures forall g :: g != f ==> FormValue(r, g) == FormValue(d, g)
  {
    match f
    case UserId => d.(userId := v)
    case Specialty => d.(specialty := v)
    case Bio => d.(bio := v)
    case LanguagesField => d.(languages := v)
  }

  datatype Form = Form(data: FormData, education: seq<Education>, experience: seq<Experience>)

  /** Empty inputs and exactly one blank row in each list. */
  const Start := Form(FormData("", "", "", ""), [BlankEducation], [BlankExperience])

  datatype Event =
    | Input(field: FormField, value: string)
    | EducationInput(index: int, efield: EducationField, value: string)
    | ExperienceInput(index: int, xfield: ExperienceField, value: string)
    | AddEducation
    | AddExperience

  predicate OnScreen(f: Form, ev: Event) {
    && (ev.EducationInput? ==> 0 <= ev.index < |f.education|)
    && (ev.ExperienceInput? ==> 0 <= ev.index < |f.experience|)
  }

  /** One handler. Rows are only ever added or edited, so no row list shrinks
      and each handler touches only its own part of the form. */
  function Apply(f: Form, ev: Event): (r: Form)
    requires OnScreen(f, ev)
    ensures !ev.Input? ==> r.data == f.data
    ensures !(ev.EducationInput? || ev.AddEducation?) ==> r.education == f.education
    ensures !(ev.ExperienceInput? || ev.AddExperience?) ==> r.experience == f.experience
    ensures |r.education| >= |f.education| && |r.experience| >= |f.experience|
  {
    match ev
    case Input(g, v) => f.(data := SetForm(f.data, g, v))
    case EducationInput(i, g, v) => f.(education := EditEducation(f.education, i, g, v))
    case ExperienceInput(i, g, v) => f.(experience := EditExperience(f.experience, i, g, v))
    case AddEducation => f.(education := Append(f.education, BlankEducation))
    case AddExperience => f.(experience := Append(f.experience, BlankExperience))
  }

  /** The body sent to the doctors route: every input as typed (no field is
      required), the row lists, and the languages split at commas and trimmed. */
  datatype Payload = Payload(
    userId: string,
    specialty: string,
    bio: string,
    education: seq<Education>,
    experience: seq<Experience>,
    languages: seq<string>)

  function Submit(f: Form): (r: Payload)
    ensures r.userId == f.data.userId && r.specialty == f.data.specialty && r.bio == f.data.bio
    ensures r.education == f.education && r.experience == f.experience
    ensures |r.languages| == Count(f.data.languages, ',') + 1
    ensures r.languages == Languages(f.data.languages)
  {
    Payload(f.data.userId, f.data.specialty, f.data.bio, f.education, f.experience, Languages(f.data.languages))
  }

  /** The form and the add-doctor page read the languages field the same way:
      names typed as a comma-separated list come back one by one. */
  lemma SubmitReadsTypedLanguages(f: Form, names: seq<string>)
    requires |names| >= 1
    requires forall i :: 0 <= i < |names| ==> ',' !in names[i]
    requires forall i :: 0 <= i < |names| ==> |names[i]| == 0 || (!IsSpace(names[i][0]) && !IsSpace(names[i][|names[i]| - 1]))
    requires f.data.languages == Join(names, ',')
    ensures Submit(f).languages == names
  {
    LanguagesOfJoin(names);
  }
}
