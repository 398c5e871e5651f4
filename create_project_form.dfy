/**
  The project creation form: its schema (a non-empty name and a non-empty
  description), the forwarding of valid data to `onCreate`, and when the
  submit button is disabled.
 */
module CreateProjectForm {
  import opened Wrappers

  /** The raw values of the form's fields. */
  datatype ProjectFormValues = ProjectFormValues(name: string, description: string)

  datatype Field = NameField | DescriptionField

  /** A validation issue: the field and its message. */
  datatype Issue = TooShort(field: Field, message: string)

  /** The schema's checks, field by field in declaration order; each field reports on its own. */
  function Issues(v: ProjectFormValues): (r: seq<Issue>)
    ensures TooShort(NameField, "Name is required") in r <==> v.name == ""
    ensures TooShort(DescriptionField, "Description is required") in r <==> v.description == ""
    ensures |r| == (if v.name == "" then 1 else 0) + (if v.description == "" then 1 else 0)
  {
    (if |v.name| < 1 then [TooShort(NameField, "Name is required")] else []) +
    (if |v.description| < 1 then [TooShort(DescriptionField, "Description is required")] else [])
  }

  /**
    Parses the form values against the schema: accepted exactly when both fields
    are non-empty; otherwise each empty field has its own error and no other
    error is reported.
   */
  function Validate(v: ProjectFormValues): (r: Result<ProjectFormValues, seq<Issue>>)
    ensures r.Ok? <==> |v.name| >= 1 && |v.description| >= 1
    ensures r.Ok? ==> r.value == v
    ensures r.Err? ==> (TooShort(NameField, "Name is required") in r.error <==> v.name == "")
    ensures r.Err? ==> (TooShort(DescriptionField, "Description is required") in r.error <==> v.description == "")
    ensures r.Err? ==> |r.error| == (if v.name == "" then 1 else 0) + (if v.description == "" then 1 else 0)
  {
    var issues := Issues(v);
    if issues == [] then Ok(v) else Err(issues)
  }

  /** A submit: valid data reaches `onCreate` unchanged; invalid data does not reach it. */
  function Submit(v: ProjectFormValues): (created: Option<ProjectFormValues>)
    ensures created.Some? <==> v.name != "" && v.description != ""
    ensures created.Some? ==> created.value == v
  {
    match Validate(v)
    case Ok(data) => Some(data)
    case Err(_) => None
  }

  /** The submit button is disabled while a creation is in flight. */
  function SubmitDisabled(isLoading: bool): (disabled: bool)
    ensures disabled == isLoading
  {
    isLoading
  }
}
