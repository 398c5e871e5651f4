/**
  The API client, run against an in-memory model of the remote store: a
  `projects` table, a `tasks` table and the id of the signed-in user. Each call
  the client makes to the store may fail; the failure is an input (`Some(message)`
  for a failing call, `None` for one that succeeds), and a failing call changes
  nothing. Ids and creation timestamps are generated by the store and are inputs
  too.
 */
module Api {
  import opened Wrappers
  import opened Domain
  import opened Listing

  /** What the client throws. */
  datatype ApiError =
    | NotAuthenticated
    | TaskIdRequired
    | NotSingleRow
    | StoreError(message: string)

  /** The message of a thrown error. */
  function Message(e: ApiError): string {
    match e
    case NotAuthenticated => "User not authenticated"
    case TaskIdRequired => "Task ID is required"
    case NotSingleRow => "JSON object requested, multiple (or no) rows returned"
    case StoreError(m) => m
  }

  /** The fields a caller supplies to create a project. */
  datatype NewProject = NewProject(name: string, description: Option<string>)

  /** The fields of a project update; an absent field is not written. */
  datatype ProjectPatch = ProjectPatch(name: Option<string>, description: Option<Option<string>>)

  /** The fields a caller supplies to create a task. */
  datatype NewTask = NewTask(title: string, status: Status, project_id: string)

  function ProjectCreatedAt(p: Project): nat {
    p.created_at
  }

  function TaskCreatedAt(t: Task): nat {
    t.created_at
  }

  /** The database's order on timestamps. */
  function TimeLe(a: nat, b: nat): bool {
    a <= b
  }

  lemma TimeLeTotalPreorder()
    ensures TotalPreorder(TimeLe)
  {
  }

  /** The projects owned by `userId`. */
  function OwnedBy(rows: seq<Project>, userId: string): seq<Project> {
    Filter(rows, (p: Project) => p.user_id == userId)
  }

  /** The projects whose id is `id`. */
  function ProjectsWithId(rows: seq<Project>, id: string): seq<Project> {
    Filter(rows, (p: Project) => p.id == id)
  }

  /** `DELETE FROM projects WHERE id = id`. */
  function WithoutProject(rows: seq<Project>, id: string): seq<Project> {
    Filter(rows, (p: Project) => p.id != id)
  }

  /** The tasks of project `projectId`. */
  function TasksOf(rows: seq<Task>, projectId: string): seq<Task> {
    Filter(rows, (t: Task) => t.project_id == projectId)
  }

  /** `DELETE FROM tasks WHERE project_id = projectId`. */
  function WithoutTasksOf(rows: seq<Task>, projectId: string): seq<Task> {
    Filter(rows, (t: Task) => t.project_id != projectId)
  }

  /** `DELETE FROM tasks WHERE id = id`. */
  function WithoutTask(rows: seq<Task>, id: string): seq<Task> {
    Filter(rows, (t: Task) => t.id != id)
  }

  /** Writes the fields the patch supplies; every other column is kept. */
  function ApplyPatch(p: Project, patch: ProjectPatch): Project {
    p.(name := if patch.name.Some? then patch.name.value else p.name,
       description := if patch.description.Some? then patch.description.value else p.description)
  }

  /** The remote store, as the client sees it. */
  class RemoteStore {
    var projects: seq<Project>
    var tasks: seq<Task>
    /** The user id `auth.getUser` reports; `None` when it reports no user or fails. */
    var currentUser: Option<string>

    constructor (projects: seq<Project>, tasks: seq<Task>, currentUser: Option<string>)
      ensures this.projects == projects && this.tasks == tasks && this.currentUser == currentUser
    {
      this.projects := projects;
      this.tasks := tasks;
      this.currentUser := currentUser;
    }

    /** The signed-in user, if there is one with a non-empty id (an empty id is falsy). */
    function AuthenticatedUser(): (u: Option<string>)
      reads this
      ensures u.Some? <==> currentUser.Some? && currentUser.value != ""
      ensures u.Some? ==> u == currentUser
    {
      match currentUser
      case Some(id) => if id != "" then Some(id) else None
      case None => None
    }

    /**
      `projectApi.getAll`: fails as unauthenticated before reading any table;
      otherwise the signed-in user's projects, each as often as stored and no
      others, newest first.
     */
    method GetAllProjects(fail: Option<string>) returns (r: Result<seq<Project>, ApiError>)
      ensures AuthenticatedUser().None? ==> r == Err(NotAuthenticated)
      ensures AuthenticatedUser().Some? && fail.Some? ==> r == Err(StoreError(fail.value))
      ensures AuthenticatedUser().Some? && fail.None? ==> r.Ok?
      ensures r.Ok? ==> forall p :: multiset(r.value)[p]
                          == if p.user_id == AuthenticatedUser().value then multiset(projects)[p] else 0
      ensures r.Ok? ==> SortedBy(r.value, ProjectCreatedAt, Desc, TimeLe)
    {
      var user := AuthenticatedUser();
      if user.None? {
        return Err(NotAuthenticated);
      }
      if fail.Some? {
        return Err(StoreError(fail.value));
      }
      var rows := SortBy(OwnedBy(projects, user.value), ProjectCreatedAt, Desc, TimeLe);
      TimeLeTotalPreorder();
      SortBySorted(OwnedBy(projects, user.value), ProjectCreatedAt, Desc, TimeLe);
      r := Ok(rows);
    }

    /**
      `projectApi.create`: fails as unauthenticated before writing anything;
      otherwise inserts the given fields stamped with the signed-in user's id and
      returns the inserted row.
     */
    method CreateProject(project: NewProject, newId: string, now: nat, fail: Option<string>)
      returns (r: Result<Project, ApiError>)
      modifies this`projects
      ensures old(AuthenticatedUser()).None? ==> r == Err(NotAuthenticated) && projects == old(projects)
      ensures old(AuthenticatedUser()).Some? && fail.Some? ==>
                r == Err(StoreError(fail.value)) && projects == old(projects)
      ensures old(AuthenticatedUser()).Some? && fail.None? ==>
                && r == Ok(Project(newId, project.name, project.description, old(AuthenticatedUser()).value, now))
                && projects == old(projects) + [r.value]
    {
      var user := AuthenticatedUser();
      if user.None? {
        return Err(NotAuthenticated);
      }
      if fail.Some? {
        return Err(StoreError(fail.value));
      }
      var row := Project(newId, project.name, project.description, user.value, now);
      projects := projects + [row];
      r := Ok(row);
    }

    /**
      `projectApi.getById`: the one project with that id; zero or several
      matching rows are an error, as is a failing call.
     */
    method GetProjectById(projectId: string, fail: Option<string>) returns (r: Result<Project, ApiError>)
      ensures fail.Some? ==> r == Err(StoreError(fail.value))
      ensures fail.None? ==> (r.Ok? <==> |ProjectsWithId(projects, projectId)| == 1)
      ensures fail.None? && r.Err? ==> r.error == NotSingleRow
      ensures r.Ok? ==> r.value in projects && r.value.id == projectId
    {
      if fail.Some? {
        return Err(StoreError(fail.value));
      }
      var rows := ProjectsWithId(projects, projectId);
      if |rows| == 1 {
        assert rows[0] in rows;
        r := Ok(rows[0]);
      } else {
        r := Err(NotSingleRow);
      }
    }

    /**
      `projectApi.delete`: deletes the project row, then, unconditionally, the
      project's tasks. The task error is thrown in preference to the project
      error; nothing is rolled back.
     */
    method DeleteProject(projectId: string, projectFail: Option<string>, taskFail: Option<string>)
      returns (r: Result<(), ApiError>)
      modifies this`projects, this`tasks
      ensures projects == if projectFail.None? then WithoutProject(old(projects), projectId) else old(projects)
      ensures tasks == if taskFail.None? then WithoutTasksOf(old(tasks), projectId) else old(tasks)
      ensures r == if taskFail.Some? then Err(StoreError(taskFail.value))
                   else if projectFail.Some? then Err(StoreError(projectFail.value))
                   else Ok(())
      ensures r.Ok? ==> forall p :: p in projects ==> p.id != projectId
      ensures r.Ok? ==> forall t :: t in tasks ==> t.project_id != projectId
      ensures forall p :: p in old(projects) && p.id != projectId ==> p in projects
      ensures forall t :: t in old(tasks) && t.project_id != projectId ==> t in tasks
    {
      if projectFail.None? {
        projects := WithoutProject(projects, projectId);
      }
      if taskFail.None? {
        tasks := WithoutTasksOf(tasks, projectId);
      }
      if taskFail.Some? {
        return Err(StoreError(taskFail.value));
      }
      if projectFail.Some? {
        return Err(StoreError(projectFail.value));
      }
      r := Ok(());
    }

    /**
      `projectApi.update`: writes the supplied fields on every project with that
      id; all other rows and columns are kept.
     */
    method UpdateProject(projectId: string, patch: ProjectPatch, fail: Option<string>)
      returns (r: Result<(), ApiError>)
      modifies this`projects
      ensures fail.Some? ==> r == Err(StoreError(fail.value)) && projects == old(projects)
      ensures fail.None? ==> r == Ok(()) && |projects| == |old(projects)|
      ensures fail.None? ==> forall i :: 0 <= i < |projects| ==>
                projects[i] == if old(projects)[i].id == projectId then ApplyPatch(old(projects)[i], patch)
                               else old(projects)[i]
    {
      if fail.Some? {
        return Err(StoreError(fail.value));
      }
      projects := UpdateWhere(projects, (p: Project) => p.id == projectId, (p: Project) => ApplyPatch(p, patch));
      r := Ok(());
    }

    /** `taskApi.getAll`: every task, newest first. */
    method GetAllTasks(fail: Option<string>) returns (r: Result<seq<Task>, ApiError>)
      ensures fail.Some? ==> r == Err(StoreError(fail.value))
      ensures fail.None? ==> r.Ok? && multiset(r.value) == multiset(tasks)
      ensures r.Ok? ==> SortedBy(r.value, TaskCreatedAt, Desc, TimeLe)
    {
      if fail.Some? {
        return Err(StoreError(fail.value));
      }
      TimeLeTotalPreorder();
      SortBySorted(tasks, TaskCreatedAt, Desc, TimeLe);
      r := Ok(SortBy(tasks, TaskCreatedAt, Desc, TimeLe));
    }

    /** `taskApi.getByProject`: the tasks of one project, each as often as stored and no others, newest first. */
    method GetTasksByProject(projectId: string, fail: Option<string>) returns (r: Result<seq<Task>, ApiError>)
      ensures fail.Some? ==> r == Err(StoreError(fail.value))
      ensures fail.None? ==> r.Ok?
      ensures r.Ok? ==> forall t :: multiset(r.value)[t]
                          == if t.project_id == projectId then multiset(tasks)[t] else 0
      ensures r.Ok? ==> SortedBy(r.value, TaskCreatedAt, Desc, TimeLe)
    {
      if fail.Some? {
        return Err(StoreError(fail.value));
      }
      TimeLeTotalPreorder();
      SortBySorted(TasksOf(tasks, projectId), TaskCreatedAt, Desc, TimeLe);
      r := Ok(SortBy(TasksOf(tasks, projectId), TaskCreatedAt, Desc, TimeLe));
    }

    /** `taskApi.create`: inserts the given fields and returns the inserted row. */
    method CreateTask(task: NewTask, newId: string, now: nat, fail: Option<string>)
      returns (r: Result<Task, ApiError>)
      modifies this`tasks
      ensures fail.Some? ==> r == Err(StoreError(fail.value)) && tasks == old(tasks)
      ensures fail.None? ==> r == Ok(Task(newId, task.title, task.status, task.project_id, now))
      ensures fail.None? ==> tasks == old(tasks) + [r.value]
    {
      if fail.Some? {
        return Err(StoreError(fail.value));
      }
      var row := Task(newId, task.title, task.status, task.project_id, now);
      tasks := tasks + [row];
      r := Ok(row);
    }

    /** `taskApi.delete`: an empty id is refused before the store is called. */
    method DeleteTask(id: string, fail: Option<string>) returns (r: Result<(), ApiError>)
      modifies this`tasks
      ensures id == "" ==> r == Err(TaskIdRequired) && tasks == old(tasks)
      ensures id != "" && fail.Some? ==> r == Err(StoreError(fail.value)) && tasks == old(tasks)
      ensures id != "" && fail.None? ==> r == Ok(()) && tasks == WithoutTask(old(tasks), id)
    {
      if id == "" {
        return Err(TaskIdRequired);
      }
      if fail.Some? {
        return Err(StoreError(fail.value));
      }
      tasks := WithoutTask(tasks, id);
      r := Ok(());
    }

    /** `taskApi.updateStatus`: writes only `status` on the tasks with that id. */
    method UpdateTaskStatus(taskId: string, status: Status, fail: Option<string>) returns (r: Result<(), ApiError>)
      modifies this`tasks
      ensures taskId == "" ==> r == Err(TaskIdRequired) && tasks == old(tasks)
      ensures taskId != "" && fail.Some? ==> r == Err(StoreError(fail.value)) && tasks == old(tasks)
      ensures taskId != "" && fail.None? ==> r == Ok(()) && |tasks| == |old(tasks)|
      ensures taskId != "" && fail.None? ==> forall i :: 0 <= i < |tasks| ==>
                tasks[i] == if old(tasks)[i].id == taskId then old(tasks)[i].(status := status) else old(tasks)[i]
    {
      if taskId == "" {
        return Err(TaskIdRequired);
      }
      if fail.Some? {
        return Err(StoreError(fail.value));
      }
      tasks := UpdateWhere(tasks, (t: Task) => t.id == taskId, (t: Task) => t.(status := status));
      r := Ok(());
    }

    /** `taskApi.updateTask`: writes only `title` on the tasks with that id. */
    method UpdateTaskTitle(taskId: string, title: string, fail: Option<string>) returns (r: Result<(), ApiError>)
      modifies this`tasks
      ensures taskId == "" ==> r == Err(TaskIdRequired) && tasks == old(tasks)
      ensures taskId != "" && fail.Some? ==> r == Err(StoreError(fail.value)) && tasks == old(tasks)
      ensures taskId != "" && fail.None? ==> r == Ok(()) && |tasks| == |old(tasks)|
      ensures taskId != "" && fail.None? ==> forall i :: 0 <= i < |tasks| ==>
                tasks[i] == if old(tasks)[i].id == taskId then old(tasks)[i].(title := title) else old(tasks)[i]
    {
      if taskId == "" {
        return Err(TaskIdRequired);
      }
      if fail.Some? {
        return Err(StoreError(fail.value));
      }
      tasks := UpdateWhere(tasks, (t: Task) => t.id == taskId, (t: Task) => t.(title := title));
      r := Ok(());
    }
  }
}
