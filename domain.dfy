/** The rows of the two database tables and the task status enumeration. */
module Domain {
  import opened Wrappers

  /** `'pending' | 'in_progress' | 'completed'`. */
  datatype Status = Pending | InProgress | Completed

  /** The string that stands for a status in rows and forms. */
  function StatusName(s: Status): string {
    match s
    case Pending => "pending"
    case InProgress => "in_progress"
    case Completed => "completed"
  }

  /** Reads a status string; any other string is not a status. */
  function ParseStatus(name: string): (r: Option<Status>)
    ensures r.Some? ==> StatusName(r.value) == name
  {
    if name == "pending" then Some(Pending)
    else if name == "in_progress" then Some(InProgress)
    else if name == "completed" then Some(Completed)
    else None
  }

  /** Every status survives a round trip through its string. */
  lemma ParseStatusName(s: Status)
    ensures ParseStatus(StatusName(s)) == Some(s)
  {
  }

  /**
    A project row. `created_at` is the database's creation timestamp, kept as a
    number so that "newest first" is its numeric order.
   */
  datatype Project = Project(
    id: string,
    name: string,
    description: Option<string>,
    user_id: string,
    created_at: nat)

  /** A task row. */
  datatype Task = Task(
    id: string,
    title: string,
    status: Status,
    project_id: string,
    created_at: nat)
}
