# Campus collaboration store — a Dafny model

This project models the logic of a campus collaboration web application:
the backend's project and resource handlers, the upload filter in front of
them, and the client's list pages, session provider and route guard.

- **Project store** (`ProjectController`): a table of projects
  (`id → title, description, skillsRequired, createdBy, members`) and the
  users' contribution counters (`Users.UserTable`). Create, list, fetch,
  join and delete are methods returning the HTTP status and JSON body and
  updating the tables. The object invariant `Valid()` says every stored
  project has its owner on the roster and no member twice.
- **Resource store** (`ResourceController`): create with the controller's
  MIME allow-list, the choice between an uploaded file and a body
  `fileUrl`, the inline-PDF URL rewrite and optional (anonymous)
  uploaders; list; delete with its ownership check, the best-effort
  destroy on the media host and the counter decrement. The media host's
  upload answer (`secure_url`, `public_id`, `format`, or an error) is an
  input; its destroy call is an action that may fail and is only recorded
  as attempted.
- **Upload filter** (`Multer`): membership in the six-type allow-list,
  the rejection message, the 120 MiB limit.
- **Client pages** (`ProjectsPage`, `ResourcesPage`): the "mine"/"others"
  filters over the fetched list, the owner reference as
  `Absent | RawId | Populated`, the render decisions (spinner, empty
  message, Delete and View controls) and the component state updated by
  fetch and the optimistic delete.
- **Session** (`Auth.AuthProvider`, `ProtectedRoute`): stored token,
  current user and `loadingAuth`, driven by login, logout and the start-up
  rehydrate (whose `/auth/me` answer is an input); the guard's three-way
  decision.

Every handler is one atomic step. Points worth stating outright:
`image/gif` passes the upload filter but the resource controller refuses
it; the server applies no floor to the contribution counter, which can go
negative; the session provider offers only login, logout and the start-up
check and has no helper that adjusts the cached user's counter; the
resource delete handler answers 403 to an anonymous caller and 500 (not
403) to a signed-in caller on a resource without uploader.

## Model

| member | source | states |
|---|---|---|
| Common.Status.Code | backend/src/controllers/projectController.js:18-21 | each status answers with its HTTP code (201, 200, 400, 403, 404, 500); exactly Created and Ok are 2xx |
| Users.Bumped | backend/src/controllers/projectController.js:15-16 | `$inc` adds `delta` to the named user's counter only, with no floor; an unknown id changes nothing; no user appears or disappears |
| Users.BumpedCancels | backend/src/controllers/projectController.js:50-51 | a +1 followed by a −1 for the same user restores every counter |
| Users.UserTable.Increment | backend/src/controllers/projectController.js:16 | the counter table after the update is `Bumped` of the old one |
| ProjectController.JoinKeepsWellFormed | backend/src/controllers/projectController.js:82-87 | appending a non-member keeps "owner is a member, no duplicates" and grows the roster by exactly one |
| ProjectController.ProjectStore.CreateProject | backend/src/controllers/projectController.js:4-23 | 201; the new record is owned by the caller with roster exactly `[caller]`; nothing else in the table changes; the caller's counter rises by one; the invariant holds |
| ProjectController.ProjectStore.GetProjects | backend/src/controllers/projectController.js:25-34 | 200 with every stored project, each with its owner on the roster and no duplicate member |
| ProjectController.ProjectStore.GetProjectById | backend/src/controllers/projectController.js:59-74 | unknown id → 404 "Project not found"; otherwise 200 with the stored project |
| ProjectController.ProjectStore.JoinProject | backend/src/controllers/projectController.js:76-93 | unknown id → 404, table unchanged; caller already a member → 400 "Already a member", table unchanged; otherwise 200 and only that record changes, its roster is the old one plus the caller once; counters are not in the frame |
| ProjectController.ProjectStore.DeleteProject | backend/src/controllers/projectController.js:36-57 | unknown id → 404 and non-owner → 403, both leaving table and counters unchanged; owner → 200, exactly that record removed, owner's counter −1 |
| ProjectController.CreateJoinDeleteScenario | backend/src/controllers/projectController.js:4-93 | create, join, re-join, non-owner delete, owner delete, fetch answer 201, 200, 400, 403, 200, 404; the roster has two members after the join; the owner's counter ends where it began |
| Multer.FileFilter | backend/src/middleware/multer.js:15-26 | accepts exactly the six listed types with no error; otherwise `false` with the error "Unsupported file type. Allowed: pdf, doc, docx, jpg, png, gif" |
| Multer.MaxFileSize | backend/src/middleware/multer.js:30 | the size limit is 125829120 bytes |
| ResourceController.AcceptedTypesAreFiltered | backend/src/controllers/resourceController.js:36-44 | the controller accepts exactly pdf, msword, docx, png, jpeg, and every one of them passes the upload filter |
| ResourceController.FilterAdmitsOnlyGifBeyondController | backend/src/middleware/multer.js:6-13 | a type passes the upload filter but is refused by the controller iff it is `image/gif` |
| Text.IndexOfFrom | backend/src/controllers/resourceController.js:62 | the result is the first index at or after `from` where the pattern occurs, or none when it occurs nowhere from there |
| Text.IndexOf | backend/src/controllers/resourceController.js:62 | the result is the first occurrence of the pattern, and None iff it occurs nowhere |
| Text.ReplaceFirst | backend/src/controllers/resourceController.js:62 | with no occurrence the string is unchanged; otherwise the first occurrence is replaced and prefix and suffix are kept |
| Text.ReplaceFirstInserts | backend/src/controllers/resourceController.js:62 | replacing the first `pat` with `pat + extra` inserts `extra` right after it and changes nothing else |
| ResourceController.InlinePdfUrl | backend/src/controllers/resourceController.js:59-63 | a URL without `/upload/` is unchanged; otherwise `fl_attachment:false/` is inserted right after its first `/upload/` |
| ResourceController.StoredUrl | backend/src/controllers/resourceController.js:60-65 | format "pdf" → the inline URL; any other format → the secure URL unchanged; never shorter than the secure URL |
| ResourceController.ResourceStore.CreateResource | backend/src/controllers/resourceController.js:29-93 | disallowed file type → 400 "Unsupported file type", no upload, no change; failed upload → 500, no change; otherwise 201 with exactly one new record: a file gives the stored URL and public id (file wins over body `fileUrl`), a truthy body `fileUrl` alone is stored verbatim with no public id, neither gives no file fields; `uploadedBy` is the caller or absent; the counter rises by one only for a caller |
| ResourceController.ResourceStore.GetResources | backend/src/controllers/resourceController.js:96-107 | 200 with every stored resource; each one that holds a media handle also holds a URL |
| ResourceController.ResourceStore.DeleteResource | backend/src/controllers/resourceController.js:110-151 | unknown id → 404; no caller or another uploader → 403; no uploader with a caller → 500; none of these changes anything or contacts the media host; otherwise 200, the record removed, the caller's counter −1, destroy attempted iff the record has a truthy public id, whatever the destroy's outcome |
| ResourceController.CreateDeleteScenario | backend/src/controllers/resourceController.js:29-151 | an anonymous link-only create answers 201 with no uploader and no counter change; an upload then delete by its owner answers 201 and 200, tries a destroy, and restores the counter even when the destroy fails |
| Lists.Filter | frontend/src/pages/Projects.jsx:44-50 | the result is an order-preserving subsequence; it holds exactly the elements passing the test, each as often as in the input |
| Lists.FilterSplits | frontend/src/pages/Projects.jsx:43-60 | filtering by a test and by its negation yields lists that together hold the input's elements with their multiplicities |
| Lists.SubsequenceOfItself | frontend/src/pages/Projects.jsx:51 | (helper) every list is a subsequence of itself; used for the no-user branch of `otherUsersProjects` |
| Lists.EmptyIsSubsequence | frontend/src/pages/Projects.jsx:60 | (helper) the empty list is a subsequence of every list; used for the no-user branches of `myProjects` and `myResources` |
| ProjectsPage.OtherUsersProjects | frontend/src/pages/Projects.jsx:43-51 | no user → the whole list; with a user → exactly the projects not owned by the user, ownerless ones included; an order-preserving subsequence |
| ProjectsPage.MyProjects | frontend/src/pages/Projects.jsx:54-60 | no user → empty; with a user → exactly the projects whose object `_id` or raw id equals the user's id; an order-preserving subsequence |
| ProjectsPage.ListsPartitionProjects | frontend/src/pages/Projects.jsx:43-60 | with a user, every fetched project lands in exactly one of the two lists, and the lists' multisets add up to the fetched one |
| ProjectsPage.BothListsEmptyIffNoProjects | frontend/src/pages/Projects.jsx:77-78 | both lists are empty iff nothing was fetched |
| ProjectsPage.MainDeleteButtonAsWritten | frontend/src/pages/Projects.jsx:103-105 | without a user no button; with a user and an ownerless project the test throws; otherwise a button iff the owner reference matches the user |
| ProjectsPage.OwnerlessProjectBreaksMainSection | frontend/src/pages/Projects.jsx:43-50 | an ownerless project is listed in the main section for a signed-in user, and its Delete test throws |
| ProjectsPage.MainDeleteButton | frontend/src/pages/Projects.jsx:103-105 | (corrected) a button iff a user is signed in and owns the project; agrees with the as-written test wherever that does not throw |
| ProjectsPage.NoDeleteButtonInMainSection | frontend/src/pages/Projects.jsx:81-112 | no project in the main section offers Delete |
| ProjectsPage.Render | frontend/src/pages/Projects.jsx:73-156 | (corrected Delete test) spinner iff loading; "No projects yet" iff not loading and nothing fetched; otherwise the main cards are `otherUsersProjects`, none deletable, each flag equal to the as-written test wherever that does not throw; the "My Projects" section lists `myProjects` |
| ClientTypes.RemoveById | frontend/src/pages/Projects.jsx:36 | exactly the entries with that id are gone; the rest keep order and multiplicity (used by both pages; Resources.jsx:36 is the same filter) |
| ProjectsPage.ProjectsView.constructor | frontend/src/pages/Projects.jsx:10-11 | the page starts with an empty list and loading |
| ProjectsPage.ProjectsView.FetchProjects | frontend/src/pages/Projects.jsx:13-24 | a response replaces the list; a failure keeps it and raises "Failed to load projects"; loading is false afterwards |
| ProjectsPage.ProjectsView.HandleDelete | frontend/src/pages/Projects.jsx:30-40 | no user → "Login required", no request; unconfirmed → nothing; success → "Project deleted" and `RemoveById`; failure → "Failed to delete", list unchanged |
| ResourcesPage.MyResources | frontend/src/pages/Resources.jsx:43-49 | no user → empty; with a user → exactly the resources with a present uploader whose object `_id` or raw id matches, in order |
| ResourcesPage.DeleteButtonIffMine | frontend/src/pages/Resources.jsx:99-102 | a resource of the list offers Delete iff it is in `myResources` |
| ResourcesPage.Render | frontend/src/pages/Resources.jsx:62-136 | loading text iff loading; "No resources available" iff not loading and the list is empty; otherwise one card per resource with a View link iff `fileUrl` is truthy (pointing to it) and Delete iff the resource is in `myResources`; the "My Resources" section lists `myResources` |
| ResourcesPage.DeleteButton | frontend/src/pages/Resources.jsx:99-102 | Delete is offered iff a user is signed in and owns the resource, which then has a present uploader |
| ResourcesPage.Controls | frontend/src/pages/Resources.jsx:87-109 | a card links to its file iff `fileUrl` is truthy (and then to that non-empty URL), and offers Delete iff the signed-in user owns the resource |
| ResourcesPage.ResourcesView.constructor | frontend/src/pages/Resources.jsx:10-11 | the page starts with an empty list and loading |
| ResourcesPage.ResourcesView.FetchResources | frontend/src/pages/Resources.jsx:13-23 | a response replaces the list; a failure keeps it and raises "Failed to load resources"; loading is false afterwards |
| ResourcesPage.ResourcesView.HandleDelete | frontend/src/pages/Resources.jsx:29-40 | no user → "Login required", no request; unconfirmed → nothing; success → "Deleted successfully" and `RemoveById`; failure → "Delete failed", list unchanged |
| Auth.AuthProvider.constructor | frontend/src/context/AuthProvider.jsx:6-7 | the session starts with no user and `loadingAuth` true; storage keeps its token |
| Auth.AuthProvider.Login | frontend/src/context/AuthProvider.jsx:9-12 | the stored token is the given one and the user the given one |
| Auth.AuthProvider.Logout | frontend/src/context/AuthProvider.jsx:14-17 | no stored token and no user, whatever the state before |
| Auth.AuthProvider.Rehydrate | frontend/src/context/AuthProvider.jsx:20-34 | a request is made iff the stored token is truthy; without one the user is kept; with one the user becomes the answer, or none on failure; the token is never removed; `loadingAuth` ends false |
| ProtectedRoute.Guard | frontend/src/components/ProtectedRoute.jsx:5-15 | spinner iff loading; children iff not loading with a user; otherwise a replacing redirect to "/login" |
| ProtectedRoute.GuardAfterStartup | frontend/src/components/ProtectedRoute.jsx:7-14 | after start-up the guard never spins, shows the page iff a truthy token was stored and `/auth/me` succeeded, and otherwise redirects to "/login" |
| ProtectedRoute.GuardAfterLogoutAndLogin | frontend/src/context/AuthProvider.jsx:9-17 | once authentication has settled, logout makes the guard redirect to "/login" and a later login makes it show the page |

## Findings

| source | as written | input that shows it | evidently intended | confidence | as-written member | corrected member |
|---|---|---|---|---|---|---|
| frontend/src/pages/Projects.jsx:103-105 | the main section's Delete test reads `p.createdBy._id` with no presence guard, while the filter at lines 43-50 deliberately lists projects without `createdBy` there | a signed-in user and a fetched project whose `createdBy` is missing: the project is in `otherUsersProjects` and rendering its card throws a TypeError | no Delete button for an ownerless project (`p.createdBy && …`, as in Resources.jsx:99-102) | low: the backend always sets `createdBy`; not executed | ProjectsPage.MainDeleteButtonAsWritten, ProjectsPage.OwnerlessProjectBreaksMainSection | ProjectsPage.MainDeleteButton |

## Left out

- The media host (Cloudinary upload stream, `streamifier`, `destroy`): foreign network calls; the upload answer is an input and the destroy only recorded as attempted.
- Database behaviour: `populate` (owners and members are ids in the store; the client's `Populated` reference stands for the projection to name/email/role), ObjectId casting, id generation (a fresh `newId` is an input), schema validation and timestamps of `models/project.js` and `models/resource.js`, which are not part of this model.
- The 500 answers of a database failure in every handler: create, list, fetch and join, and also both delete handlers (projectController.js:54-56, resourceController.js:147-149). `DeleteProject` and `DeleteResource` state their outcomes only for a database that answers; "nothing changed" on a non-200 answer covers the modelled paths, not a failure part-way.
- Partial effects hidden by the one-step model: `deleteResource` destroys the media file (resourceController.js:127-135) before removing the record (137), so a later failure leaves a record whose file is gone; `createResource` uploads (48) before creating the record (71), so a failed create leaves an orphaned upload; `deleteProject` removes the record (projectController.js:48) before the counter update (51), so a failure there leaves the counter unchanged.
- Authentication: `authController`, `authMiddleware` (`protect`), JWT and password hashing are not part of this model; the project handlers take an authenticated caller, as their routes always pass one; the whole `/auth/*` API is left out.
- The multer pipeline itself: how a filter rejection or an oversized file reaches the client depends on the resource routes and Express error handling, which are not part of this model; only the filter decision and the limit constant are modelled.
- ProjectsPage.Render: renders the main section with the guarded Delete test of `MainDeleteButton`; for a signed-in user with an ownerless project the page as written throws instead (see Findings).
- Multer.MaxFileSize: states the constant only, not multer's enforcement of it.
- Concurrency: the read-then-write race in `joinProject` and the ordering of asynchronous client calls; every handler and every client handler is one atomic step.
- React rendering details, routing (`App.jsx`), `localStorage` beyond one optional token, `toast` (recorded as a returned value), `confirm` and fetch results (inputs); the intermediate `loading = true` / `loadingAuth = true` states are not observable in one atomic step.
- A `createdBy`/`uploadedBy` of `null` (what `populate` yields for a removed user): users are never removed, so only a missing field is modelled.
- Form and presentational pages (login, signup, create forms, profile, not-found, navigation bar) and the axios wrapper: UI markup and form plumbing.
