/**
  The project table component: the list it displays (search and sort over the
  `projects` prop) and its local view state (the row being edited, the snapshot
  of its editable fields, the search term and the sort direction).
 */
module ProjectTableComponent {
  import opened Wrappers
  import opened Text
  import opened Listing

  /** A row as the component receives it. */
  datatype ProjectRow = ProjectRow(id: string, name: string, description: string)

  /** The editable fields of the row in edit mode. */
  datatype EditData = EditData(name: string, description: string)

  /** The arguments handed to `onUpdate(projectId, updatedProject)`. */
  datatype ProjectUpdate = ProjectUpdate(projectId: string, updated: ProjectRow)

  /** The sort key of a row. */
  function Name(p: ProjectRow): string {
    p.name
  }

  /**
    The search, applied only for a non-empty term. It keeps exactly the
    projects whose lower-cased name includes the lower-cased term, each as
    often as in the input; for the empty term that is every project.
   */
  function FilteredProjects(projects: seq<ProjectRow>, searchTerm: string): (r: seq<ProjectRow>)
    ensures forall p :: multiset(r)[p] == if MatchesSearch(p.name, searchTerm) then multiset(projects)[p] else 0
    ensures searchTerm == "" ==> r == projects
  {
    if searchTerm != "" then Filter(projects, (p: ProjectRow) => MatchesSearch(p.name, searchTerm))
    else
      assert forall p: ProjectRow :: MatchesSearch(p.name, searchTerm) by {
        forall p: ProjectRow ensures MatchesSearch(p.name, searchTerm) {
          ContainsEmpty(Lower(p.name));
        }
      }
      projects
  }

  /**
    The derived list: the searched copy of the input, sorted by name in the
    current direction. It holds exactly the matching projects, each as often as
    in the input, and for the empty term a permutation of all of them.
   */
  function ShownProjects(projects: seq<ProjectRow>, searchTerm: string,
                         dir: Direction, le: (string, string) -> bool): (r: seq<ProjectRow>)
    ensures forall p :: multiset(r)[p] == if MatchesSearch(p.name, searchTerm) then multiset(projects)[p] else 0
    ensures searchTerm == "" ==> multiset(r) == multiset(projects)
  {
    SortBy(FilteredProjects(projects, searchTerm), Name, dir, le)
  }

  /** Ascending by name for `Asc`, descending for `Desc`, when `localeCompare` is a total preorder. */
  lemma ShownProjectsSorted(projects: seq<ProjectRow>, searchTerm: string,
                            dir: Direction, le: (string, string) -> bool)
    requires TotalPreorder(le)
    ensures SortedBy(ShownProjects(projects, searchTerm, dir, le), Name, dir, le)
  {
    SortBySorted(FilteredProjects(projects, searchTerm), Name, dir, le);
  }

  /** The component's local state and its event handlers. */
  class ProjectTable {
    var editingId: Option<string>
    var searchTerm: string
    var sortDirection: Direction
    var editData: EditData

    /** The initial state of the component. */
    constructor ()
      ensures editingId == None && searchTerm == "" && sortDirection == Asc
      ensures editData == EditData("", "")
    {
      editingId := None;
      searchTerm := "";
      sortDirection := Asc;
      editData := EditData("", "");
    }

    /** The list displayed for the `projects` prop in the current state. */
    function Shown(projects: seq<ProjectRow>, le: (string, string) -> bool): seq<ProjectRow>
      reads this
    {
      ShownProjects(projects, searchTerm, sortDirection, le)
    }

    /** Typing in the search box, or clearing it with its button. */
    method SetSearchTerm(term: string)
      modifies this`searchTerm
      ensures searchTerm == term
    {
      searchTerm := term;
    }

    /** Typing in the name input of the row being edited. */
    method SetEditName(name: string)
      modifies this`editData
      ensures editData == old(editData).(name := name)
    {
      editData := editData.(name := name);
    }

    /** Typing in the description text area of the row being edited. */
    method SetEditDescription(description: string)
      modifies this`editData
      ensures editData == old(editData).(description := description)
    {
      editData := editData.(description := description);
    }

    /** Enters edit mode for `project` and snapshots its name and description. */
    method StartEditing(project: ProjectRow)
      modifies this`editingId, this`editData
      ensures editingId == Some(project.id)
      ensures editData == EditData(project.name, project.description)
    {
      editingId := Some(project.id);
      editData := EditData(project.name, project.description);
    }

    /** Leaves edit mode; `onUpdate` is not called. */
    method CancelEditing()
      modifies this`editingId
      ensures editingId == None
    {
      editingId := None;
    }

    /**
      Always calls `onUpdate(projectId, {id: projectId, ...editData})`, with no
      check on the snapshot, then leaves edit mode.
     */
    method SaveEditing(projectId: string) returns (update: ProjectUpdate)
      modifies this`editingId
      ensures editingId == None
      ensures update.projectId == projectId && update.updated.id == projectId
      ensures update.updated.name == editData.name && update.updated.description == editData.description
    {
      update := ProjectUpdate(projectId, ProjectRow(projectId, editData.name, editData.description));
      editingId := None;
    }

    /** The sort button: ascending becomes descending and back. */
    method ToggleSort()
      modifies this`sortDirection
      ensures sortDirection == old(sortDirection).Toggle()
    {
      sortDirection := sortDirection.Toggle();
    }
  }
}
