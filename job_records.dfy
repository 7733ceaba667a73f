/** The job record the server returns and the two client-side drafts built
    from it: the create form and the edit form. */
module JobRecords {
  import opened JsValues

  type JobId = int

  /** One record as the server serialises it. `dateApplied` is the application
      date as a day number counted from 1970-01-01 (negative before it), and is
      absent when the server sends null. */
  datatype Job = Job(
    id: JobId,
    title: string,
    company: string,
    location: Option<string>,
    status: string,
    dateApplied: Option<int>,
    notes: Option<string>,
    userId: int)

  /** The create draft: every input holds a string, `dateApplied` is the
      date input's raw value. */
  datatype JobForm = JobForm(
    title: string,
    company: string,
    location: string,
    status: string,
    dateApplied: string,
    notes: string)

  /** The inputs of the create form, by their `name` attribute. */
  datatype FormField = Title | Company | Location | Status | DateApplied | Notes

  /** The draft the create form starts from and is reset to after a successful create. */
  const EmptyForm := JobForm("", "", "", "applied", "", "")

  function FieldValue(form: JobForm, f: FormField): string {
    match f
    case Title => form.title
    case Company => form.company
    case Location => form.location
    case Status => form.status
    case DateApplied => form.dateApplied
    case Notes => form.notes
  }

  /** `{ ...prev, [name]: value }`: the named input takes the value, every
      other input keeps its own. */
  function SetField(form: JobForm, f: FormField, v: string): (r: JobForm)
    ensures forall g :: FieldValue(r, g) == if g == f then v else FieldValue(form, g)
  {
    match f
    case Title => form.(title := v)
    case Company => form.(company := v)
    case Location => form.(location := v)
    case Status => form.(status := v)
    case DateApplied => form.(dateApplied := v)
    case Notes => form.(notes := v)
  }

  /** The edit draft of the record in edit mode: only status and notes are editable. */
  datatype EditForm = EditForm(status: string, notes: string)

  datatype EditField = EditStatus | EditNotes

  /** The edit draft outside edit mode. */
  const IdleEditForm := EditForm("", "")

  function EditFieldValue(draft: EditForm, f: EditField): string {
    match f
    case EditStatus => draft.status
    case EditNotes => draft.notes
  }

  function SetEditField(draft: EditForm, f: EditField, v: string): (r: EditForm)
    ensures forall g :: EditFieldValue(r, g) == if g == f then v else EditFieldValue(draft, g)
  {
    match f
    case EditStatus => draft.(status := v)
    case EditNotes => draft.(notes := v)
  }

  /** The draft that entering edit mode on `job` starts from: its status, and
      its notes with null or empty read as "". */
  function DraftOf(job: Job): (d: EditForm)
    ensures d.status == job.status
    ensures d.notes == "" <==> !Truthy(job.notes)
    ensures d.notes != "" ==> job.notes == Some(d.notes)
  {
    EditForm(job.status, OrElse(job.notes, ""))
  }
}
