/**
  The task creation form: its schema (a non-empty project id, a non-empty
  title, one of the three statuses), its default values, what a submit hands
  to `onCreate`, and when the submit button is disabled.
 */
module CreateTaskForm {
  import opened Wrappers
  import opened Domain

  /** An entry of the `projects` prop, offered in the project drop-down. */
  datatype ProjectOption = ProjectOption(id: string, name: string)

  /** The raw values of the form's fields. */
  datatype TaskFormValues = TaskFormValues(project_id: string, title: string, status: string)

  /** The validated record handed to `onCreate`. */
  datatype NewTask = NewTask(project_id: string, title: string, status: Status)

  datatype Field = ProjectIdField | TitleField | StatusField

  /** A validation issue attached to a field. */
  datatype Issue =
    | TooShort(field: Field, message: string)
    | InvalidEnumValue(field: Field, received: string)

  /** The schema's checks, field by field in declaration order; each field reports on its own. */
  function Issues(v: TaskFormValues): (r: seq<Issue>)
    ensures TooShort(ProjectIdField, "Project is required") in r <==> v.project_id == ""
    ensures TooShort(TitleField, "Title is required") in r <==> v.title == ""
    ensures InvalidEnumValue(StatusField, v.status) in r <==> v.status !in ["pending", "in_progress", "completed"]
    ensures |r| == (if v.project_id == "" then 1 else 0) + (if v.title == "" then 1 else 0)
                 + (if v.status in ["pending", "in_progress", "completed"] then 0 else 1)
  {
    (if |v.project_id| < 1 then [TooShort(ProjectIdField, "Project is required")] else []) +
    (if |v.title| < 1 then [TooShort(TitleField, "Title is required")] else []) +
    (if ParseStatus(v.status).None? then [InvalidEnumValue(StatusField, v.status)] else [])
  }

  /**
    Parses the form values against the schema. Only lengths are checked, so a
    title of spaces passes.
   */
  function Validate(v: TaskFormValues): (r: Result<NewTask, seq<Issue>>)
    ensures r.Ok? <==> |v.project_id| >= 1 && |v.title| >= 1 && v.status in ["pending", "in_progress", "completed"]
    ensures r.Ok? ==> r.value.project_id == v.project_id && r.value.title == v.title
    ensures r.Ok? ==> StatusName(r.value.status) == v.status
    ensures r.Err? ==> |r.error| > 0
    ensures v.project_id == "" ==> r.Err? && TooShort(ProjectIdField, "Project is required") in r.error
    ensures v.title == "" ==> r.Err? && TooShort(TitleField, "Title is required") in r.error
  {
    var issues := Issues(v);
    if issues == [] then
      Ok(NewTask(v.project_id, v.title, ParseStatus(v.status).value))
    else
      Err(issues)
  }

  /** A submit: `onCreate` is called, with the parsed record, only when the values pass the schema. */
  function Submit(v: TaskFormValues): (created: Option<NewTask>)
    ensures created.Some? <==> Validate(v).Ok?
    ensures created.Some? ==> created.value == NewTask(v.project_id, v.title, created.value.status)
    ensures created.Some? ==> StatusName(created.value.status) == v.status
  {
    match Validate(v)
    case Ok(task) => Some(task)
    case Err(_) => None
  }

  /** A title of whitespace alone is accepted: there is no trimming. */
  lemma WhitespaceTitleAccepted(projectId: string)
    requires projectId != ""
    ensures Validate(TaskFormValues(projectId, " ", "pending")) == Ok(NewTask(projectId, " ", Pending))
  {
  }

  /** The values the form starts with: the first project (or none), an empty title, pending. */
  function DefaultValues(projects: seq<ProjectOption>): (v: TaskFormValues)
    ensures v.title == "" && v.status == "pending"
    ensures v.project_id == if |projects| > 0 then projects[0].id else ""
  {
    TaskFormValues(if |projects| > 0 && projects[0].id != "" then projects[0].id else "", "", "pending")
  }

  /** The untouched form is rejected, for its empty title whatever the projects are. */
  lemma DefaultsRejected(projects: seq<ProjectOption>)
    ensures Validate(DefaultValues(projects)).Err?
    ensures TooShort(TitleField, "Title is required") in Validate(DefaultValues(projects)).error
    ensures projects == [] ==> TooShort(ProjectIdField, "Project is required") in Validate(DefaultValues(projects)).error
  {
  }

  /** The submit button is disabled exactly when there is no project to assign the task to. */
  function SubmitDisabled(projects: seq<ProjectOption>): (disabled: bool)
    ensures disabled <==> |projects| == 0
  {
    !(|projects| > 0)
  }
}
