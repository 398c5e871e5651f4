/**
  The task table component: the list it displays (search, status filter and
  sort over the `tasks` prop) and its local view state (the row being edited,
  the edited title, the search term, the sort direction and the status filter).
 */
module TaskTableComponent {
  import opened Wrappers
  import opened Text
  import opened Listing
  import opened Domain

  /** A row as the component receives it. */
  datatype TaskRow = TaskRow(id: string, title: string, status: Status)

  /** The payload handed to `onUpdateTask`. */
  datatype TaskEdit = TaskEdit(id: string, title: string, status: Status)

  /** The sort key of a row. */
  function Title(t: TaskRow): string {
    t.title
  }

  /**
    Which rows the table should show, stated without reference to how the
    filters are applied: the title matches the search (trivially so for the
    empty term) and the status equals the filter, if there is one.
   */
  predicate Passes(t: TaskRow, searchTerm: string, statusFilter: Option<Status>) {
    && MatchesSearch(t.title, searchTerm)
    && (statusFilter.Some? ==> t.status == statusFilter.value)
  }

  /** The status filter's test: the row has status `s`. */
  function StatusIs(s: Status): TaskRow -> bool {
    (t: TaskRow) => t.status == s
  }

  /**
    The filtering half of the derived list: keep the rows matching a non-empty
    search term, then the rows with the filtered status if a filter is set.
    It keeps exactly the rows that pass, each as often as in the input.
   */
  function FilteredTasks(tasks: seq<TaskRow>, searchTerm: string, statusFilter: Option<Status>): (r: seq<TaskRow>)
    ensures forall t :: multiset(r)[t] == if Passes(t, searchTerm, statusFilter) then multiset(tasks)[t] else 0
    ensures searchTerm == "" && statusFilter == None ==> r == tasks
  {
    var searched :=
      if searchTerm != "" then Filter(tasks, (t: TaskRow) => MatchesSearch(t.title, searchTerm))
      else
        assert forall t: TaskRow :: MatchesSearch(t.title, searchTerm) by {
          forall t: TaskRow ensures MatchesSearch(t.title, searchTerm) {
            ContainsEmpty(Lower(t.title));
          }
        }
        tasks;
    match statusFilter
    case Some(s) => Filter(searched, StatusIs(s))
    case None => searched
  }

  /**
    The derived list: the filtered copy of the input, sorted by title in the
    current direction. It holds exactly the input rows that pass both filters,
    each as often as in the input: nothing else is dropped or duplicated. With
    an empty search and no status filter it is a permutation of the input.
   */
  function ShownTasks(tasks: seq<TaskRow>, searchTerm: string, statusFilter: Option<Status>,
                      dir: Direction, le: (string, string) -> bool): (r: seq<TaskRow>)
    ensures forall t :: multiset(r)[t] == if Passes(t, searchTerm, statusFilter) then multiset(tasks)[t] else 0
    ensures searchTerm == "" && statusFilter == None ==> multiset(r) == multiset(tasks)
  {
    SortBy(FilteredTasks(tasks, searchTerm, statusFilter), Title, dir, le)
  }

  /**
    Choosing a status keeps the order of the list shown without a status
    filter: the filtered list is the unfiltered sorted list with the other
    statuses taken out.
   */
  lemma StatusFilterKeepsOrder(tasks: seq<TaskRow>, searchTerm: string, s: Status,
                               dir: Direction, le: (string, string) -> bool)
    requires TotalPreorder(le)
    ensures ShownTasks(tasks, searchTerm, Some(s), dir, le)
         == Filter(ShownTasks(tasks, searchTerm, None, dir, le), StatusIs(s))
  {
    FilterSortBy(FilteredTasks(tasks, searchTerm, None), Title, dir, le, StatusIs(s));
  }

  /**
    The shown list is non-decreasing by title for `Asc` and non-increasing for
    `Desc`, whenever `localeCompare` orders strings as a total preorder.
   */
  lemma ShownTasksSorted(tasks: seq<TaskRow>, searchTerm: string, statusFilter: Option<Status>,
                         dir: Direction, le: (string, string) -> bool)
    requires TotalPreorder(le)
    ensures SortedBy(ShownTasks(tasks, searchTerm, statusFilter, dir, le), Title, dir, le)
  {
    SortBySorted(FilteredTasks(tasks, searchTerm, statusFilter), Title, dir, le);
  }

  /** Toggling the sort twice gives back the same displayed list. */
  lemma ToggleTwiceSameList(tasks: seq<TaskRow>, searchTerm: string, statusFilter: Option<Status>,
                            dir: Direction, le: (string, string) -> bool)
    ensures ShownTasks(tasks, searchTerm, statusFilter, dir.Toggle().Toggle(), le)
         == ShownTasks(tasks, searchTerm, statusFilter, dir, le)
  {
    ToggleTwice(dir);
  }

  /** The three rows of the worked sort example, titled "b", "a" and "c". */
  const RowB := TaskRow("1", "b", Pending)
  const RowA := TaskRow("2", "a", Pending)
  const RowC := TaskRow("3", "c", Pending)

  lemma SortOneRow(dir: Direction)
    ensures SortBy([RowC], Title, dir, CodePointLe) == [RowC]
  {
    assert [RowC][1..] == [];
  }

  lemma TitleOrder()
    ensures CodePointLe("a", "b") && CodePointLe("a", "c") && CodePointLe("b", "c")
    ensures !CodePointLe("b", "a") && !CodePointLe("c", "a") && !CodePointLe("c", "b")
  {
  }

  lemma SortTwoRows(dir: Direction)
    ensures SortBy([RowA, RowC], Title, dir, CodePointLe) == if dir == Asc then [RowA, RowC] else [RowC, RowA]
  {
    assert [RowA, RowC][1..] == [RowC];
    SortOneRow(dir);
    TitleOrder();
    assert Insert(RowA, [], Title, dir, CodePointLe) == [RowA];
  }

  /** Titles "b", "a", "c" show as "a", "b", "c" in ascending order. */
  lemma SortAscExample()
    ensures ShownTasks([RowB, RowA, RowC], "", None, Asc, CodePointLe) == [RowA, RowB, RowC]
  {
    assert FilteredTasks([RowB, RowA, RowC], "", None) == [RowB, RowA, RowC];
    assert [RowB, RowA, RowC][1..] == [RowA, RowC];
    SortTwoRows(Asc);
    TitleOrder();
    assert Insert(RowB, [RowC], Title, Asc, CodePointLe) == [RowB, RowC];
  }

  /** Titles "b", "a", "c" show as "c", "b", "a" in descending order. */
  lemma SortDescExample()
    ensures ShownTasks([RowB, RowA, RowC], "", None, Desc, CodePointLe) == [RowC, RowB, RowA]
  {
    assert FilteredTasks([RowB, RowA, RowC], "", None) == [RowB, RowA, RowC];
    assert [RowB, RowA, RowC][1..] == [RowA, RowC];
    SortTwoRows(Desc);
    TitleOrder();
    assert Insert(RowB, [RowA], Title, Desc, CodePointLe) == [RowB, RowA];
  }

  /** The rows drawn in edit mode: those whose id equals `editingId`. */
  function RowsInEditMode(rows: seq<TaskRow>, editingId: Option<string>): seq<TaskRow> {
    match editingId
    case None => []
    case Some(id) => Filter(rows, (r: TaskRow) => r.id == id)
  }

  /** Row ids are distinct. */
  predicate UniqueIds(rows: seq<TaskRow>) {
    forall i, j :: 0 <= i < j < |rows| ==> rows[i].id != rows[j].id
  }

  /** With distinct row ids, at most one row is ever in edit mode. */
  lemma AtMostOneRowEditing(rows: seq<TaskRow>, editingId: Option<string>)
    requires UniqueIds(rows)
    ensures |RowsInEditMode(rows, editingId)| <= 1
  {
    if editingId.Some? {
      var id := editingId.value;
      FilterAtMostOne(rows, (r: TaskRow) => r.id == id);
    }
  }

  /** The component's local state and its event handlers. */
  class TaskTable {
    var editingId: Option<string>
    var editTitle: string
    var searchTerm: string
    var sortDirection: Direction
    var statusFilter: Option<Status>

    /** The initial state of the component. */
    constructor ()
      ensures editingId == None && editTitle == "" && searchTerm == ""
      ensures sortDirection == Asc && statusFilter == None
    {
      editingId := None;
      editTitle := "";
      searchTerm := "";
      sortDirection := Asc;
      statusFilter := None;
    }

    /** The list displayed for the `tasks` prop in the current state. */
    function Shown(tasks: seq<TaskRow>, le: (string, string) -> bool): seq<TaskRow>
      reads this
    {
      ShownTasks(tasks, searchTerm, statusFilter, sortDirection, le)
    }

    /** Typing in the search box. */
    method SetSearchTerm(term: string)
      modifies this`searchTerm
      ensures searchTerm == term
    {
      searchTerm := term;
    }

    /** Picking a status, or "Show All", in the filter menu. */
    method SetStatusFilter(filter: Option<Status>)
      modifies this`statusFilter
      ensures statusFilter == filter
    {
      statusFilter := filter;
    }

    /** Typing in the title input of the row being edited. */
    method SetEditTitle(title: string)
      modifies this`editTitle
      ensures editTitle == title
    {
      editTitle := title;
    }

    /** Enters edit mode for `task`, with its title as the edited text; any other row leaves edit mode. */
    method StartEditing(task: TaskRow)
      modifies this`editingId, this`editTitle
      ensures editingId == Some(task.id) && editTitle == task.title
    {
      editingId := Some(task.id);
      editTitle := task.title;
    }

    /** Leaves edit mode without an update. */
    method CancelEditing()
      modifies this`editingId
      ensures editingId == None
    {
      editingId := None;
    }

    /**
      Leaves edit mode; fires `onUpdateTask` with the edited title and the status
      reset to pending exactly when the title holds a non-whitespace character.
     */
    method SaveEditing(taskId: string) returns (update: Option<TaskEdit>)
      modifies this`editingId
      ensures editingId == None
      ensures update.Some? <==> HasContent(editTitle)
      ensures update.Some? ==> update.value == TaskEdit(taskId, editTitle, Pending)
    {
      TrimNonEmptyIff(editTitle);
      if Trim(editTitle) != "" {
        update := Some(TaskEdit(taskId, editTitle, Pending));
      } else {
        update := None;
      }
      editingId := None;
    }

    /** A key pressed in the title input: Enter saves, Escape cancels, any other key does nothing. */
    method HandleKeyDown(key: string, taskId: string) returns (update: Option<TaskEdit>)
      modifies this`editingId
      ensures key == "Enter" ==> editingId == None
      ensures key == "Enter" ==> (update.Some? <==> HasContent(editTitle))
      ensures key == "Enter" && update.Some? ==> update.value == TaskEdit(taskId, editTitle, Pending)
      ensures key == "Escape" ==> editingId == None && update == None
      ensures key != "Enter" && key != "Escape" ==> editingId == old(editingId) && update == None
    {
      update := None;
      if key == "Enter" {
        update := SaveEditing(taskId);
      } else if key == "Escape" {
        CancelEditing();
      }
    }

    /** The sort button: ascending becomes descending and back. */
    method ToggleSort()
      modifies this`sortDirection
      ensures sortDirection == old(sortDirection).Toggle()
    {
      sortDirection := sortDirection.Toggle();
    }

    /** "Clear filters": empty search, no status filter; the sort direction stays. */
    method ClearFilters()
      modifies this`searchTerm, this`statusFilter
      ensures searchTerm == "" && statusFilter == None
    {
      searchTerm := "";
      statusFilter := None;
    }
  }
}
