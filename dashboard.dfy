/** The `Dashboard` component's state and handlers. Every request is
    recorded in `requests` and its settled outcome is a parameter of the
    handler that issued it; navigation is recorded in `navigations`. */
module DashboardView {
  import opened JsValues
  import opened JobRecords
  import opened DateSort
  import opened JobList
  import opened Startup

  /** The requests the dashboard sends, with the body each carries. */
  datatype Request =
    | ProtectedProbe
    | ListJobs
    | CreateJob(draft: JobForm)
    | UpdateJob(id: JobId, edit: EditForm)
    | DeleteJob(id: JobId)

  const AddFailedText := "Failed to add job"
  const DeleteFailedText := "Failed to delete job"
  const UpdateFailedText := "Failed to update job"

  /** A snapshot of every field of the component. */
  datatype DashboardState = DashboardState(
    message: string,
    jobs: seq<Job>,
    showAllJobs: bool,
    form: JobForm,
    error: Option<string>,
    loading: bool,
    submitting: bool,
    editingJobId: Option<JobId>,
    editForm: EditForm,
    token: Option<string>,
    navigations: seq<string>,
    requests: seq<Request>)

  class Dashboard {
    var message: string
    var jobs: seq<Job>
    var showAllJobs: bool
    var form: JobForm
    var error: Option<string>
    var loading: bool
    var submitting: bool
    var editingJobId: Option<JobId>
    var editForm: EditForm
    /** The value stored under the key "token", read on every render. */
    var token: Option<string>
    var navigations: seq<string>
    var requests: seq<Request>

    function State(): DashboardState
      reads this
    {
      DashboardState(message, jobs, showAllJobs, form, error, loading, submitting,
                     editingJobId, editForm, token, navigations, requests)
    }

    /** The initial `useState` values: no records, still loading, nothing in
        edit mode. */
    constructor (storedToken: Option<string>)
      ensures State() == DashboardState("", [], false, EmptyForm, None, true, false,
                                        None, IdleEditForm, storedToken, [], [])
    {
      message := "";
      jobs := [];
      showAllJobs := false;
      form := EmptyForm;
      error := None;
      loading := true;
      submitting := false;
      editingJobId := None;
      editForm := IdleEditForm;
      token := storedToken;
      navigations := [];
      requests := [];
    }

    /** The mount effect. Without a token it navigates to "/" and sends
        nothing. With one it sends both startup requests and applies their
        joined outcome; loading is over either way. */
    method Mount(probe: Reply<Option<string>>, list: Reply<seq<Job>>, probeSettlesFirst: bool)
      modifies this
      ensures !Truthy(old(token)) ==> State() == old(State()).(navigations := old(navigations) + ["/"])
      ensures Truthy(old(token)) && JoinStartup(probe, list, probeSettlesFirst).Loaded? ==>
        State() == old(State()).(requests := old(requests) + [ProtectedProbe, ListJobs], loading := false,
                                 message := OrElse(probe.body, ""), jobs := SortByDate(list.body), error := None)
      ensures Truthy(old(token)) && JoinStartup(probe, list, probeSettlesFirst).LoadFailed? ==>
        State() == old(State()).(requests := old(requests) + [ProtectedProbe, ListJobs], loading := false,
                                 error := Some(JoinStartup(probe, list, probeSettlesFirst).reason))
    {
      if !Truthy(token) {
        navigations := navigations + ["/"];
        return;
      }
      loading := true;
      requests := requests + [ProtectedProbe, ListJobs];
      SettleStartup(JoinStartup(probe, list, probeSettlesFirst));
    }

    /** The `.then`, `.catch` and `.finally` of the joined startup requests:
        on success the message and the fetched records, latest first, are
        taken and the error is cleared; on failure only the error is set and
        the list is left as it was. */
    method SettleStartup(outcome: StartupOutcome)
      modifies this
      ensures outcome.Loaded? ==>
        State() == old(State()).(message := outcome.message, jobs := SortByDate(outcome.jobsData),
                                 error := None, loading := false)
      ensures outcome.Loaded? ==> SortedDesc(jobs) && multiset(jobs) == multiset(outcome.jobsData)
      ensures outcome.LoadFailed? ==>
        State() == old(State()).(error := Some(outcome.reason), loading := false)
    {
      if outcome.Loaded? {
        message := outcome.message;
        jobs := SortedCopy(outcome.jobsData);
        error := None;
        SortByDateSorted(outcome.jobsData);
      } else {
        error := Some(outcome.reason);
      }
      loading := false;
    }

    /** `handleLogout`: the stored token is removed and the view navigates to "/". */
    method Logout()
      modifies this
      ensures State() == old(State()).(token := None, navigations := old(navigations) + ["/"])
    {
      token := None;
      navigations := navigations + ["/"];
    }

    /** `handleChange`: one input of the create form takes a new value, and
        the error is cleared. */
    method HandleChange(f: FormField, v: string)
      modifies this
      ensures State() == old(State()).(form := SetField(old(form), f, v), error := None)
    {
      form := SetField(form, f, v);
      error := None;
    }

    /** `handleSubmit`: posts the draft. On success the server's record goes
        in front of the list, unsorted, and the form is reset; on failure the
        list and the form are kept and the error is set. */
    method HandleSubmit(reply: Reply<Job>)
      modifies this
      ensures reply.Ok? ==>
        State() == old(State()).(requests := old(requests) + [CreateJob(old(form))], submitting := false,
                                 jobs := [reply.body] + old(jobs), form := EmptyForm, error := None)
      ensures !reply.Ok? ==>
        State() == old(State()).(requests := old(requests) + [CreateJob(old(form))], submitting := false,
                                 error := Some(FailureMessage(reply, AddFailedText)))
    {
      error := None;
      submitting := true;
      requests := requests + [CreateJob(form)];
      if reply.Ok? {
        jobs := [reply.body] + jobs;
        form := EmptyForm;
      } else {
        error := Some(FailureMessage(reply, AddFailedText));
      }
      submitting := false;
    }

    /** `handleDelete`: nothing happens unless the user confirms. On success
        the records carrying `id` are filtered out; on failure the list is
        kept and the error is set. The error is not cleared beforehand. */
    method HandleDelete(id: JobId, confirmed: bool, reply: Reply<()>)
      modifies this
      ensures !confirmed ==> State() == old(State())
      ensures confirmed && reply.Ok? ==>
        State() == old(State()).(requests := old(requests) + [DeleteJob(id)], jobs := RemoveById(old(jobs), id))
      ensures confirmed && !reply.Ok? ==>
        State() == old(State()).(requests := old(requests) + [DeleteJob(id)],
                                 error := Some(FailureMessage(reply, DeleteFailedText)))
    {
      if !confirmed {
        return;
      }
      requests := requests + [DeleteJob(id)];
      match reply
      case Ok(_) =>
        jobs := RemoveById(jobs, id);
      case _ =>
        error := Some(FailureMessage(reply, DeleteFailedText));
    }

    /** `startEdit`: `job` becomes the one record in edit mode, with a fresh
        draft that overwrites any previous one, and the error is cleared. */
    method StartEdit(job: Job)
      modifies this
      ensures State() == old(State()).(editingJobId := Some(job.id), editForm := DraftOf(job), error := None)
    {
      editingJobId := Some(job.id);
      editForm := DraftOf(job);
      error := None;
    }

    /** `cancelEdit`: leaves edit mode and empties the draft. */
    method CancelEdit()
      modifies this
      ensures State() == old(State()).(editingJobId := None, editForm := IdleEditForm)
    {
      editingJobId := None;
      editForm := IdleEditForm;
    }

    /** `handleEditChange`: one field of the edit draft takes a new value. */
    method HandleEditChange(f: EditField, v: string)
      modifies this
      ensures State() == old(State()).(editForm := SetEditField(old(editForm), f, v))
    {
      editForm := SetEditField(editForm, f, v);
    }

    /** `handleEditSubmit`: puts the draft. On success every record carrying
        `id` becomes the server's record and edit mode ends; on failure the
        list and edit mode are kept and the error is set. */
    method HandleEditSubmit(id: JobId, reply: Reply<Job>)
      modifies this
      ensures reply.Ok? ==>
        State() == old(State()).(requests := old(requests) + [UpdateJob(id, old(editForm))],
                                 jobs := ReplaceById(old(jobs), id, reply.body), editingJobId := None,
                                 editForm := IdleEditForm, error := None)
      ensures !reply.Ok? ==>
        State() == old(State()).(requests := old(requests) + [UpdateJob(id, old(editForm))],
                                 error := Some(FailureMessage(reply, UpdateFailedText)))
    {
      error := None;
      requests := requests + [UpdateJob(id, editForm)];
      match reply
      case Ok(updated) =>
        jobs := ReplaceById(jobs, id, updated);
        CancelEdit();
      case _ =>
        error := Some(FailureMessage(reply, UpdateFailedText));
    }

    /** The "View More" button. */
    method ShowMore()
      modifies this
      ensures State() == old(State()).(showAllJobs := true)
    {
      showAllJobs := true;
    }

    /** The "View Less" button. */
    method ShowLess()
      modifies this
      ensures State() == old(State()).(showAllJobs := false)
    {
      showAllJobs := false;
    }
  }
}
