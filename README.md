# Task manager: view state, route guard, form schemas and API client

A model of the sequential logic in a project/task management web application:

- **The two tables.** Each has a derived list: a case-insensitive search on the
  title or name, an optional status filter (tasks only), and a sort by title or
  name in either direction. Each also has local view state: the row being
  edited, the edited text, the search term, the sort direction and the status
  filter. The event handlers change that state: start, cancel and save an
  edit, Enter and Escape in the title input, toggle the sort, clear the
  filters.
- **The route guard.** A function of the path, the query string and whether a
  session exists. It either redirects to `/sign-in` carrying a `redirect`
  parameter, redirects to `/projects`, or lets the request through.
- **The form schemas.** Task creation needs a project id, a title and one of
  the three statuses. Project creation needs a name and a description. The
  model also covers the task form's default values, what a submit hands on,
  and when each submit button is disabled.
- **The API client.** It runs against an in-memory store with a `projects`
  table, a `tasks` table and the signed-in user's id. It covers the
  authentication guard, the `user_id` stamped on new projects, the empty-id
  guards, which columns each update writes, and the non-atomic two-step
  project delete with its error precedence.

Modules: `Wrappers` (Option, Result), `Text` (`startsWith`, `includes`,
`toLowerCase`, `trim`), `Listing` (filter, stable sort, update-where, sort
direction), `Domain` (rows and statuses), `TaskTableComponent`,
`ProjectTableComponent`, `Middleware`, `CreateTaskForm`, `CreateProjectForm`,
`Api`.

Modelling choices:

- `localeCompare` is an arbitrary comparator `le` on strings. The sort
  lemmas hold for every `le` that is a total preorder. `Listing.CodePointLe`
  (code-point lexicographic order) is one such comparator; it is used for the
  worked sort examples.
- `toLowerCase` is ASCII case mapping; other characters are unchanged.
- `trim` removes exactly ECMAScript's WhiteSpace and LineTerminator code points.
- Creation timestamps are natural numbers, so "newest first" is their numeric
  order. The database serializes them as strings; that encoding is not part of
  this model.
- Store-generated ids and timestamps are parameters of the create operations.
- Each remote call's failure is an input: `Some(message)` for a call that
  fails, `None` for one that succeeds. A failing call changes nothing.
- Whether `auth.getUser` reports a user, and which one, is the store's
  `currentUser` field. `None` also covers a failing `getUser`.
- The middleware's session is a boolean input.
- Each table handler returns the callback it fires, if any, as an out-parameter.
- The project delete follows the code's order: the project row first, then its
  tasks (utils/api.ts:45-46). The comment above those lines speaks of deleting the
  tasks, but the code does not delete them first. If the task delete fails after
  the project delete succeeded, the tasks are left pointing at a missing project.

## Model

| member | source | states |
|---|---|---|
| `Text.ContainsIffOccurs` | app/components/TaskTable.tsx:68 | `includes` holds exactly when the term occurs as a contiguous slice of the title at some offset |
| `Text.ContainsEmpty` | app/components/ProjectTable.tsx:47 | every string includes the empty string, so an empty term would match everything |
| `Text.LowerIdempotent` | app/components/TaskTable.tsx:68 | lower-casing leaves no ASCII capital and is idempotent |
| `Text.TrimNonEmptyIff` | app/components/TaskTable.tsx:102 | `trim()` is non-empty exactly when the string has a non-whitespace code point |
| `Text.SearchIgnoresCase` | app/components/TaskTable.tsx:68 | lower-casing the title (or name) or the term beforehand does not change the search result |
| `Listing.Filter` | app/components/TaskTable.tsx:67-74 | `filter` keeps each element that passes, as often as in the input, and nothing else |
| `Listing.SortBy` | app/components/TaskTable.tsx:77-83 | the sort returns a permutation of its input |
| `Listing.SortBySorted` | app/components/ProjectTable.tsx:49 | for a total-preorder comparator, the sorted list is in order: by `le` for ascending, by swapped `le` for descending |
| `Listing.FilterSortBy` | app/components/TaskTable.tsx:71-83 | for a total-preorder comparator, filtering the sorted list gives the same list as sorting the filtered input: the filter keeps the sorted order |
| `Listing.SortByStable` | app/components/TaskTable.tsx:77-83 | for a total-preorder comparator, the elements whose keys the comparator ties (each `le` the other both ways) come out in their input order |
| `Listing.ToggleTwice` | app/components/ProjectTable.tsx:65 | toggling the direction twice restores it |
| `Listing.UpdateWhere` | utils/api.ts:87 | an update replaces exactly the matching rows, keeps the others and keeps the order and length |
| `Listing.FilterAtMostOne` | app/components/TaskTable.tsx:281 | when no two rows both match, at most one row passes |
| `Listing.CodePointLeTotalPreorder` | app/components/TaskTable.tsx:79 | code-point lexicographic order is a total preorder, so it is a valid comparator |
| `Domain.ParseStatus` | types/database.ts:12 | a parsed status prints back as the same string |
| `Domain.ParseStatusName` | types/database.ts:12 | each of the three statuses parses back from its string |
| `TaskTableComponent.FilteredTasks` | app/components/TaskTable.tsx:64-74 | the filters keep exactly the input rows passing the search (empty term: all) and the status filter (none: all), with input multiplicity; with neither, the input itself |
| `TaskTableComponent.ShownTasks` | app/components/TaskTable.tsx:63-86 | shown rows are exactly the input rows passing both filters, with input multiplicity; with neither filter, a permutation of the input |
| `TaskTableComponent.StatusFilterKeepsOrder` | app/components/TaskTable.tsx:71-83 | for a total-preorder comparator, the list shown with a status filter is the list shown without it, with the other statuses taken out |
| `TaskTableComponent.ShownTasksSorted` | app/components/TaskTable.tsx:77-83 | shown list is non-decreasing by title for asc and non-increasing for desc |
| `TaskTableComponent.ToggleTwiceSameList` | app/components/TaskTable.tsx:142-144 | two toggles give back the same shown list |
| `TaskTableComponent.SortAscExample` | app/components/TaskTable.tsx:77-79 | titles b, a, c show as a, b, c ascending |
| `TaskTableComponent.SortDescExample` | app/components/TaskTable.tsx:80-81 | titles b, a, c show as c, b, a descending |
| `TaskTableComponent.AtMostOneRowEditing` | app/components/TaskTable.tsx:88-90 | with distinct row ids, at most one row is drawn in edit mode |
| `TaskTableComponent.TaskTable.constructor` | app/components/TaskTable.tsx:54-59 | initial state: nothing edited, empty title and search, ascending, no status filter |
| `TaskTableComponent.TaskTable.SetSearchTerm` | app/components/TaskTable.tsx:160 | typing sets the search term and nothing else |
| `TaskTableComponent.TaskTable.SetStatusFilter` | app/components/TaskTable.tsx:190-210 | the filter menu sets the status filter (or clears it) and nothing else |
| `TaskTableComponent.TaskTable.SetEditTitle` | app/components/TaskTable.tsx:289 | typing in the edit input sets the edited title and nothing else |
| `TaskTableComponent.TaskTable.StartEditing` | app/components/TaskTable.tsx:88-95 | the edited id becomes the task's id and the edited title its title; nothing else changes |
| `TaskTableComponent.TaskTable.CancelEditing` | app/components/TaskTable.tsx:97-99 | leaves edit mode; nothing else changes |
| `TaskTableComponent.TaskTable.SaveEditing` | app/components/TaskTable.tsx:101-106 | always leaves edit mode; fires `onUpdateTask({id, title: editTitle, status: pending})` exactly when the title has a non-whitespace character |
| `TaskTableComponent.TaskTable.HandleKeyDown` | app/components/TaskTable.tsx:108-114 | Enter behaves as save; Escape leaves edit mode with no callback; any other key changes nothing and fires nothing |
| `TaskTableComponent.TaskTable.ToggleSort` | app/components/TaskTable.tsx:142-144 | swaps asc and desc; nothing else changes |
| `TaskTableComponent.TaskTable.ClearFilters` | app/components/TaskTable.tsx:146-149 | empties the search, clears the status filter, keeps the sort direction |
| `ProjectTableComponent.FilteredProjects` | app/components/ProjectTable.tsx:45-48 | the search keeps exactly the projects whose lower-cased name includes the lower-cased term, with input multiplicity; the empty term keeps the input itself |
| `ProjectTableComponent.ShownProjects` | app/components/ProjectTable.tsx:44-51 | shown projects are exactly the matching input projects, with input multiplicity; for the empty term, a permutation of all of them |
| `ProjectTableComponent.ShownProjectsSorted` | app/components/ProjectTable.tsx:49 | shown list is ascending by name for asc and descending for desc |
| `ProjectTableComponent.ProjectTable.constructor` | app/components/ProjectTable.tsx:38-42 | initial state: nothing edited, empty search, ascending, empty snapshot |
| `ProjectTableComponent.ProjectTable.SetSearchTerm` | app/components/ProjectTable.tsx:75-79 | typing or the clear button sets the search term and nothing else |
| `ProjectTableComponent.ProjectTable.SetEditName` | app/components/ProjectTable.tsx:108 | typing changes the snapshot's name only |
| `ProjectTableComponent.ProjectTable.SetEditDescription` | app/components/ProjectTable.tsx:118 | typing changes the snapshot's description only |
| `ProjectTableComponent.ProjectTable.StartEditing` | app/components/ProjectTable.tsx:53-56 | the edited id becomes the project's id; its name and description are snapshotted |
| `ProjectTableComponent.ProjectTable.CancelEditing` | app/components/ProjectTable.tsx:58 | leaves edit mode and fires no update |
| `ProjectTableComponent.ProjectTable.SaveEditing` | app/components/ProjectTable.tsx:60-63 | always fires `onUpdate(projectId, {id: projectId, name, description})` from the snapshot, unchecked, then leaves edit mode |
| `ProjectTableComponent.ProjectTable.ToggleSort` | app/components/ProjectTable.tsx:65 | swaps asc and desc; nothing else changes |
| `Middleware.Decide` | middleware.ts:40-66 | a redirect goes to "/projects" only with a session and to "/sign-in" only without one, and only the sign-in redirect carries `redirect`, equal to path + query; only protected or auth paths are redirected |
| `Middleware.ProtectedIff` | middleware.ts:41-44 | a path is protected exactly when it starts with "/projects" or "/tasks" |
| `Middleware.AuthIff` | middleware.ts:56-59 | a path is an auth page exactly when it starts with "/sign-in" or "/sign-up" |
| `Middleware.PrefixExamples` | middleware.ts:42-43 | "/tasks/42" and "/projectsX" are protected; "/protected/projects" is not |
| `Middleware.ProtectedAndAuthDisjoint` | middleware.ts:47-64 | no path is both protected and an auth page, so one request gets at most one redirect |
| `Middleware.DecideCases` | middleware.ts:40-66 | protected without a session redirects to "/sign-in" with `redirect` = path + query; auth page with a session redirects to "/projects"; everything else passes through, each as an iff |
| `Middleware.UnclassifiedPassesThrough` | middleware.ts:66 | a path that is neither protected nor an auth page passes through whatever the session |
| `Middleware.NoRedirectLoop` | middleware.ts:47-64 | the page a redirect leads to is let through when requested with the same session state, so the guard never redirects in a loop |
| `CreateTaskForm.Issues` | app/components/CreateTaskForm.tsx:13-17 | "Project is required" exactly for an empty project id, "Title is required" exactly for an empty title, an enum error exactly for a status outside the three; one issue per failing field |
| `CreateTaskForm.Validate` | app/components/CreateTaskForm.tsx:13-17 | accepted iff project id and title are non-empty and the status is one of the three; the record echoes the fields; each empty field reports its own message |
| `CreateTaskForm.Submit` | app/components/CreateTaskForm.tsx:29-31 | `onCreate` is called exactly for valid values, with exactly the validated record |
| `CreateTaskForm.WhitespaceTitleAccepted` | app/components/CreateTaskForm.tsx:15 | a title of spaces passes: there is no trimming |
| `CreateTaskForm.DefaultValues` | app/components/CreateTaskForm.tsx:22-26 | first project's id or "", empty title, pending |
| `CreateTaskForm.DefaultsRejected` | app/components/CreateTaskForm.tsx:13-26 | the untouched form fails with "Title is required"; with no projects also with "Project is required" |
| `CreateTaskForm.SubmitDisabled` | app/components/CreateTaskForm.tsx:57 | the button is disabled exactly when the project list is empty |
| `CreateProjectForm.Issues` | app/components/CreateProjectForm.tsx:13-16 | "Name is required" exactly for an empty name, "Description is required" exactly for an empty description; one issue per empty field |
| `CreateProjectForm.Validate` | app/components/CreateProjectForm.tsx:13-16 | accepted iff name and description are non-empty; otherwise exactly one error per empty field, with its own message |
| `CreateProjectForm.Submit` | app/components/CreateProjectForm.tsx:23-25 | valid data reaches `onCreate` unchanged; invalid data does not reach it |
| `CreateProjectForm.SubmitDisabled` | app/components/CreateProjectForm.tsx:41 | the button is disabled while loading |
| `Api.RemoteStore.constructor` | utils/api.ts:4 | the client starts over the given `projects` and `tasks` tables and signed-in user |
| `Api.RemoteStore.AuthenticatedUser` | utils/api.ts:16-17 | a user counts as signed in only with a non-empty id |
| `Api.RemoteStore.GetAllProjects` | utils/api.ts:15-21 | unauthenticated fails before any table read; otherwise exactly the user's projects, newest first; a failing select is thrown |
| `Api.RemoteStore.CreateProject` | utils/api.ts:23-35 | unauthenticated fails with no write; otherwise appends the fields stamped with the user's id and returns that row |
| `Api.RemoteStore.GetProjectById` | utils/api.ts:37-41 | succeeds exactly when one project has the id, and returns it |
| `Api.RemoteStore.DeleteProject` | utils/api.ts:43-49 | project delete then task delete, both always issued; task error wins over project error; no rollback; on success no project with the id and no task of it remain, and other rows stay |
| `Api.RemoteStore.UpdateProject` | utils/api.ts:51-54 | writes only the supplied fields, on the projects with the id; all other rows and columns unchanged |
| `Api.RemoteStore.GetAllTasks` | utils/api.ts:58-62 | all tasks, newest first |
| `Api.RemoteStore.GetTasksByProject` | utils/api.ts:63-67 | exactly the project's tasks, newest first |
| `Api.RemoteStore.CreateTask` | utils/api.ts:69-73 | appends the given fields and returns the inserted row; no guard |
| `Api.RemoteStore.DeleteTask` | utils/api.ts:75-79 | empty id is refused with "Task ID is required" before any store access; otherwise removes the tasks with the id |
| `Api.RemoteStore.UpdateTaskStatus` | utils/api.ts:80-84 | empty id refused first; otherwise writes only `status` on the tasks with the id |
| `Api.RemoteStore.UpdateTaskTitle` | utils/api.ts:85-89 | empty id refused first; otherwise writes only `title` on the tasks with the id |

## Left out

- Rendering: the JSX, icons, tooltips, animation, the status icon and colour helpers, and the focus timer in `startEditing`.
- The status drop-down on each task row is left out. It calls `onUpdateStatus({id, status})` directly and changes no component state.
- The delete buttons are left out. They call `onDelete` with the row's id.
- React's `useEffect` scheduling is left out. The displayed list is a function of the props and state, not a stored copy updated after rendering.
- Locale-aware collation is left out. `localeCompare` is an abstract total preorder.
- Unicode case mapping is left out. Lower-casing is ASCII only.
- `localeCompare`'s own choice of which strings tie is left out. The model's sort keeps every tied pair in input order, as `Array.prototype.sort` does (`Listing.SortByStable`). The store's "newest first" queries promise only the order by timestamp, as the database does.
- Supabase client construction, `auth.getUser`, `auth.getSession` and cookie handling are foreign calls. Their results are inputs.
- The database itself is a plain in-memory model. It has no row-level security and no foreign-key or uniqueness constraints. A store-side rejection is an injected failure.
- The query-string encoding of the `redirect` parameter and the absolute URL of a redirect are left out. The model keeps the path and the parameter's value.
- The middleware's `matcher` pattern is framework configuration.
- The `console.log` calls in the middleware are left out.
- `userApi.getUserByEmail` is left out because no component in this model uses it.
- The data-fetching hooks are not part of this model. They wrap the API calls with caching and notifications. They also reshape two payloads: the task-title update drops the status, and the project update sends `title` instead of `name`.
- The page components are not part of this model. They only show and hide forms and pass callbacks along.
- `taskApi.create`'s TypeScript type omits `project_id`, but callers pass it and it is inserted. The model inserts the project id.
- `CreateProjectForm.SubmitDisabled`: an `isLoading` left undefined is modelled as `false`, its truthiness.
- Strings are sequences of Unicode code points, while JavaScript strings are sequences of UTF-16 code units. Lengths and `Listing.CodePointLe` order differ from JavaScript's for characters outside the Basic Multilingual Plane. The modelled checks depend only on emptiness, `includes`, `startsWith` and whitespace in the Basic Multilingual Plane.
- `Api.RemoteStore.DeleteProject`: each API call is one atomic step, so no other request runs between the project delete and the task delete. With concurrent requests and no locking, a reader can see the project gone while its tasks remain.
