/** The editable parts of the two doctor forms: the education and experience
    row lists (append a blank row, edit one field of one row, remove a row
    while more than one is left) and the comma-separated languages field. */
module DoctorRows {

  import opened Text

  datatype Education = Education(degree: string, institution: string, year: string)
  datatype Experience = Experience(position: string, institution: string, years: string)

  const BlankEducation := Education("", "", "")
  const BlankExperience := Experience("", "", "")

  /** The `name` attribute of an education or experience input. */
  datatype EducationField = Degree | EducationInstitution | Year
  datatype ExperienceField = Position | ExperienceInstitution | Years

  function EducationValue(e: Education, f: EducationField): string {
    match f
    case Degree => e.degree
    case EducationInstitution => e.institution
    case Year => e.year
  }

  function ExperienceValue(e: Experience, f: ExperienceField): string {
    match f
    case Position => e.position
    case ExperienceInstitution => e.institution
    case Years => e.years
  }

  /** `row[name] = value` on an education row: only that field changes. */
  function SetEducation(e: Education, f: EducationField, v: string): (r: Education)
    ensures EducationValue(r, f) == v
    ensures forall g :: g != f ==> EducationValue(r, g) == EducationValue(e, g)
  {
    match f
    case Degree => e.(degree := v)
    case EducationInstitution => e.(institution := v)
    case Year => e.(year := v)
  }

  function SetExperience(e: Experience, f: ExperienceField, v: string): (r: Experience)
    ensures ExperienceValue(r, f) == v
    ensures forall g :: g != f ==> ExperienceValue(r, g) == ExperienceValue(e, g)
  {
    match f
    case Position => e.(position := v)
    case ExperienceInstitution => e.(institution := v)
    case Years => e.(years := v)
  }

  // ---------------------------------------------------------------------------
  // Row lists
  // ---------------------------------------------------------------------------

  /** `[...prev, blank]`: one row more, the earlier rows untouched. */
  function Append<T>(rows: seq<T>, blank: T): (r: seq<T>)
    ensures |r| == |rows| + 1 && r[..|rows|] == rows && r[|rows|] == blank
  {
    rows + [blank]
  }

  /** `copy[index] = row` on a copy of the list. The inputs are rendered one
      per existing row, so the index is always one of the list's. */
  function Replace<T>(rows: seq<T>, index: int, row: T): (r: seq<T>)
    requires 0 <= index < |rows|
    ensures |r| == |rows| && r[index] == row
    ensures forall i :: 0 <= i < |rows| && i != index ==> r[i] == rows[i]
  {
    rows[index := row]
  }

  /** The education input handler: field `f` of row `index` becomes `v`;
      every other field and every other row keep their values. */
  function EditEducation(rows: seq<Education>, index: int, f: EducationField, v: string): (r: seq<Education>)
    requires 0 <= index < |rows|
    ensures |r| == |rows| && EducationValue(r[index], f) == v
    ensures forall g :: g != f ==> EducationValue(r[index], g) == EducationValue(rows[index], g)
    ensures forall i :: 0 <= i < |rows| && i != index ==> r[i] == rows[i]
  {
    Replace(rows, index, SetEducation(rows[index], f, v))
  }

  function EditExperience(rows: seq<Experience>, index: int, f: ExperienceField, v: string): (r: seq<Experience>)
    requires 0 <= index < |rows|
    ensures |r| == |rows| && ExperienceValue(r[index], f) == v
    ensures forall g :: g != f ==> ExperienceValue(r[index], g) == ExperienceValue(rows[index], g)
    ensures forall i :: 0 <= i < |rows| && i != index ==> r[i] == rows[i]
  {
    Replace(rows, index, SetExperience(rows[index], f, v))
  }

  /** `rows.filter((_, i) => i !== index)`: the row at `index` is dropped and
      the others keep their order; an index outside the list drops nothing. */
  function RemoveAt<T>(rows: seq<T>, index: int): (r: seq<T>)
    ensures 0 <= index < |rows| ==> r == rows[..index] + rows[index + 1..]
    ensures !(0 <= index < |rows|) ==> r == rows
  {
    if |rows| == 0 then []
    else
      var rest := RemoveAt(rows[1..], index - 1);
      assert 0 < index < |rows| ==> rows[1..][..index - 1] == rows[1..index] && rows[1..][index..] == rows[index + 1..];
      (if index == 0 then [] else [rows[0]]) + rest
  }

  /** Removing the row just appended gives back the list before the append. */
  lemma RemoveUndoesAppend<T>(rows: seq<T>, blank: T)
    ensures RemoveAt(Append(rows, blank), |rows|) == rows
  {
    assert Append(rows, blank)[..|rows|] == rows;
  }

  /** The remove button of the add-doctor page: it acts only while more than
      one row is left, so the list it leaves is never empty. */
  function GuardedRemove<T>(rows: seq<T>, index: int): (r: seq<T>)
    ensures |rows| > 1 ==> r == RemoveAt(rows, index)
    ensures |rows| <= 1 ==> r == rows
    ensures |rows| >= 1 ==> |r| >= 1
  {
    if |rows| > 1 then RemoveAt(rows, index) else rows
  }

  // ---------------------------------------------------------------------------
  // Languages
  // ---------------------------------------------------------------------------

  /** `languages.split(",").map(l => l.trim())`: one entry per comma-separated
      piece, even for an empty field, each with its blanks removed. */
  function Languages(s: string): (r: seq<string>)
    ensures |r| == Count(s, ',') + 1
    ensures forall i :: 0 <= i < |r| ==> r[i] == Trim(Split(s, ',')[i])
    ensures forall i :: 0 <= i < |r| ==> ',' !in r[i]
    ensures forall i :: 0 <= i < |r| ==> |r[i]| > 0 ==> !IsSpace(r[i][0]) && !IsSpace(r[i][|r[i]| - 1])
  {
    var parts := Split(s, ',');
    var r := TrimEach(parts);
    forall i | 0 <= i < |r|
      ensures ',' !in r[i]
      ensures |r[i]| > 0 ==> !IsSpace(r[i][0]) && !IsSpace(r[i][|r[i]| - 1])
    {
      TrimKeepsOut(parts[i], ',');
      var t := Trim(parts[i]);
      assert r[i] == t && (|t| > 0 ==> !IsSpace(t[0]) && !IsSpace(t[|t| - 1]));
    }
    r
  }

  /** `pieces.map(l => l.trim())`. */
  function TrimEach(pieces: seq<string>): (r: seq<string>)
    ensures |r| == |pieces| && forall i :: 0 <= i < |r| ==> r[i] == Trim(pieces[i])
  {
    if |pieces| == 0 then []
    else
      var rest := TrimEach(pieces[1..]);
      assert forall i :: 0 < i < |pieces| ==> pieces[1..][i - 1] == pieces[i];
      [Trim(pieces[0])] + rest
  }

  /** A field typed as pieces joined by commas, with whatever blanks around
      each name, reads back as the pieces each trimmed: "English, Spanish"
      gives the trims of "English" and " Spanish". */
  lemma LanguagesOfPieces(pieces: seq<string>)
    requires |pieces| >= 1
    requires forall i :: 0 <= i < |pieces| ==> ',' !in pieces[i]
    ensures |Languages(Join(pieces, ','))| == |pieces|
    ensures forall i :: 0 <= i < |pieces| ==> Languages(Join(pieces, ','))[i] == Trim(pieces[i])
  {
    SplitJoin(pieces, ',');
  }

  /** A field typed as trimmed names joined by commas reads back as exactly
      those names. */
  lemma LanguagesOfJoin(names: seq<string>)
    requires |names| >= 1
    requires forall i :: 0 <= i < |names| ==> ',' !in names[i]
    requires forall i :: 0 <= i < |names| ==> |names[i]| == 0 || (!IsSpace(names[i][0]) && !IsSpace(names[i][|names[i]| - 1]))
    ensures Languages(Join(names, ',')) == names
  {
    SplitJoin(names, ',');
    forall i | 0 <= i < |names| ensures Trim(names[i]) == names[i] {
      TrimKeepsTrimmed(names[i]);
    }
  }

  /** An empty field still gives one (empty) language. */
  lemma LanguagesOfEmpty()
    ensures Languages("") == [""]
  {
    SplitNoSeparator("", ',');
    TrimKeepsTrimmed("");
  }
}
