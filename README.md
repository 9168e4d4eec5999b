# ManageMate core in Dafny

ManageMate is a project-management web application. It has an Express/socket.io
back end on MongoDB and a React front end. This project models its core and proves
properties of the model:

- the real-time server: the `activeUsers` registry from user id to socket id, chat
  delivery, and meeting broadcasts;
- the meeting routes: scheduling with per-participant notifications, and listing a
  user's meetings;
- the project handlers: role gates, file URL lists, appending files on update;
- the upload rules: the extension filter, `timestamp-originalname` naming, at most
  ten files;
- the `Meeting` and `Project` schemas with their validation;
- on the client: the project forms and their file lists, the project context's list
  updates, the root component's local lists and route guards, the sidebar menu, and
  the user list split by role.

Each source file is one module. Five helper modules sit beside them:

- `Common`: Option, ids, role names, validation errors.
- `Seqs`: JavaScript `find`, `filter`, `map`-replace and remove-by-index.
- `Text`: `split`, `join`, `pop`, `slice`, `toLowerCase` and decimal digits.
- `Transport`: socket.io rooms and deliveries.
- `FormFiles`: the MIME-type filter and the `FormData` entries shared by the two
  project forms.

State that the source updates in place is a class:

- `Presence.ChatServer`: the `activeUsers` map and the set of open sockets.
- The React component states: `AddProject.AddProjectForm`,
  `EditProject.EditProjectForm`, `ProjectContext.ProjectStore` and `App.AppState`.

Loops in the source are `while`/`for` loops with invariants:

- the `disconnect` scan;
- the notification loop of the meeting route;
- the two loops that build a `FormData`.

The database, Zoom, the clock and the network are parameters of the operations that
use them:

- A save, a query or a fetch is replaced by its outcome: a flag `dbFails`, an
  `Option`, or the collection the query reads.
- Emits are returned as `Delivery` records: a room or everyone, an event name and a
  payload.
- Which sockets are in which room is an explicit input, `joined`. A socket is always
  in the room named by its own id.
- The empty text stands for a missing id or string, which Mongoose's `required`
  rejects alike.

## Model

| member | source | states |
|---|---|---|
| Presence.ChatServer.Connect | backend/server.js:42-43 | a new connection opens its socket and leaves the registry as it was |
| Presence.ChatServer.UserConnected | backend/server.js:45-47 | the entry for the user becomes the calling socket, whatever was there; the open sockets are unchanged and every registered socket stays open |
| Presence.RegisterLastWriterWins | backend/server.js:45-47 | after registering, the user maps to the new socket; registering the same pair twice equals registering it once |
| Presence.ChatServer.Disconnect | backend/server.js:76-80 | the scan loop leaves exactly the entries whose socket is not the closing one, with their sockets unchanged, and closes the socket |
| Presence.WithoutSocket | backend/server.js:77-79 | a user stays registered iff their socket differs from the closed one, and keeps that socket |
| Presence.DisconnectRemovesExactly | backend/server.js:76-80 | an entry on the closed socket is removed, any other entry is kept with its socket, and no entry points at the closed socket afterwards |
| Presence.StaleDisconnectKeepsNewSocket | backend/server.js:46-78 | a user who re-registered on a new socket still maps to it after the old socket disconnects |
| Presence.ChatServer.SendMessage | backend/server.js:55-74 | the saved message has `isRead` false; when saving or re-reading fails, nothing is emitted; otherwise the deliveries are those of `ChatDeliveries`; the registry is only read |
| Presence.ChatDeliveries | backend/server.js:60-70 | one `receiveMessage` per registered party carrying the re-read message: the receiver's socket first, the sender's last, no other target |
| Presence.SelfMessageDeliveredTwice | backend/server.js:62-70 | a registered user messaging themselves gets the same delivery twice on the same socket |
| Presence.ChatReachesOnlyTheParties | backend/server.js:60-70 | without room joins, a socket gets the message iff it is the registered socket of the receiver or of the sender |
| Presence.MeetingScheduled | backend/server.js:50-53 | the payload is broadcast unchanged to everyone once; a payload without a meeting throws on the log line and nothing is emitted |
| Presence.BroadcastReachesEveryOpenSocket | backend/server.js:50-53 | the broadcast reaches exactly the open sockets, registered or not |
| MeetingRoutes.MissingInput | backend/src/routes/meetingRoutes.js:84 | the input test passes iff title and time are truthy and the participant list is present and non-empty; it throws iff title and time are truthy and the list is missing |
| MeetingRoutes.Schedule | backend/src/routes/meetingRoutes.js:78-118 | 400 iff the input test fails, and then no Zoom call, save or emit; a missing list ends in 500; a Zoom failure, a validation failure (with its errors) and a failed save each end in 500 with their own cause; a meeting is saved iff the input test passes, Zoom answers, the built document validates and the save succeeds; the saved document is exactly the body's fields with the requester as organizer and Zoom's id and join link, and is the 201 reply; with `io`, one notification per participant in list order, otherwise none |
| MeetingRoutes.MeetingDocument | backend/src/routes/meetingRoutes.js:92-100 | the saved document takes the body's title and participants, the cast time, the requester as organizer and Zoom's id and join link; a missing description is stored as "" (the source leaves the field absent, which the schema treats alike) |
| MeetingRoutes.NotifyParticipants | backend/src/routes/meetingRoutes.js:107-109 | one `meetingNotification {meeting}` per participant entry, in order, to the room named by that entry |
| MeetingRoutes.NoticeReachesParticipantRooms | backend/src/routes/meetingRoutes.js:107-109 | a socket gets a notice iff it is a member of some participant's room |
| MeetingRoutes.NoticeWithoutJoins | backend/src/routes/meetingRoutes.js:107-109 | with no room joins, which backend/server.js never makes, a notice reaches only an open socket whose id equals a participant id |
| MeetingRoutes.MeetingsOf | backend/src/routes/meetingRoutes.js:124-126 | the result holds exactly the meetings the user organises or takes part in |
| MeetingModel.Validate | backend/src/models/Meeting.js:3-28 | a missing title is reported iff the title is empty; the future-time error iff a time is present and not after now; every empty participant is reported at its index; the description is never reported |
| MeetingModel.ValidIff | backend/src/models/Meeting.js:3-28 | a meeting validates iff it has a title, a time strictly after now, an organizer, no missing participant and both Zoom fields |
| MeetingModel.ScheduledTimeErrors | backend/src/models/Meeting.js:6-15 | a past or present time gives "Scheduled time must be in the future"; a missing time is reported only as required |
| MeetingModel.NoParticipantsAccepted | backend/src/models/Meeting.js:21-25 | the schema accepts an empty participant list: the per-element `required` says nothing about length |
| ProjectModel.Create | backend/src/models/Project.js:9-11 | a new project has no tasks and the default status "Not Started", which is one of the enum values, and keeps the given fields |
| ProjectModel.Validate | backend/src/models/Project.js:3-12 | each of managerId, projectLeader and deadline is reported iff missing, the enum error iff the status is not one of the three; name and description are never reported |
| ProjectModel.ValidIff | backend/src/models/Project.js:3-12 | a project validates iff managerId, projectLeader and deadline are present and status is one of the three values; the name is never checked (`require` is not a Mongoose option) |
| ProjectModel.CreatedValidIff | backend/src/models/Project.js:4-10 | a freshly created project fails only on its three required fields, never on status |
| ProjectUploads.LastDot | backend/src/routes/projectRoutes.js:32 | finds the position of the last '.', or reports that there is none |
| ProjectUploads.ExtName | backend/src/routes/projectRoutes.js:32 | a non-empty extension is shorter than the name, starts with its only '.' |
| ProjectUploads.ExtNameIsSuffix | backend/src/routes/projectRoutes.js:32 | a non-empty extension is a suffix of the name |
| ProjectUploads.ExtNameAfterLastDot | backend/src/routes/projectRoutes.js:32 | the extension of `a.b` with dot-free `b` is `.b`, whatever dots `a` holds |
| ProjectUploads.Accepts | backend/src/routes/projectRoutes.js:32-33 | an accepted name has an extension of four or five characters, the lengths of the listed ones |
| ProjectUploads.FileFilter | backend/src/routes/projectRoutes.js:31-38 | a file is accepted iff its lower-cased extension is one of the 13 listed; otherwise the error is "Invalid file type." |
| ProjectUploads.NoDotRejected | backend/src/routes/projectRoutes.js:32-37 | a name without a dot has no extension and is refused |
| ProjectUploads.LastDotIgnoresCase | backend/src/routes/projectRoutes.js:32 | lower-casing a name does not move its last dot |
| ProjectUploads.ExtNameIgnoresCase | backend/src/routes/projectRoutes.js:32 | the extension of the lower-cased name is the lower-cased extension |
| ProjectUploads.AcceptsIgnoresCase | backend/src/routes/projectRoutes.js:32-33 | a name is accepted iff its lower-cased form is |
| ProjectUploads.UpperCaseAccepted | backend/src/routes/projectRoutes.js:32-33 | "REPORT.PDF" is accepted |
| ProjectUploads.ForeignLastExtensionRejected | backend/src/routes/projectRoutes.js:32-33 | only the last extension counts: "a.pdf.exe" is refused |
| ProjectUploads.AllowedLastExtensionAccepted | backend/src/routes/projectRoutes.js:32-33 | only the last extension counts: "a.tar.sql" is accepted |
| ProjectUploads.DotFileRejected | backend/src/routes/projectRoutes.js:32-37 | a leading dot followed by dot-free text (".pdf", ".gitignore") has no extension and is refused |
| ProjectUploads.ParentNameRejected | backend/src/routes/projectRoutes.js:32-37 | ".." has no extension and is refused |
| ProjectUploads.StoredFilename | backend/src/routes/projectRoutes.js:24-26 | the stored name with everything up to its first dash removed is the original name |
| ProjectUploads.Store | backend/src/routes/projectRoutes.js:20-27 | a stored file keeps the client's name, and its stored name gives that name back after the first dash |
| ProjectUploads.UploadFrom | backend/src/routes/projectRoutes.js:41-46 | under any file filter, the upload succeeds iff there are at most `left` parts, each under `files` and accepted by the filter; then each part is stored, in order, under its timestamped name; a filter error is one the filter gave for some part |
| ProjectUploads.UploadFiles | backend/src/routes/projectRoutes.js:41-51 | on either route the upload succeeds iff there are at most ten parts, all under `files` with an allowed extension; each is stored under its timestamped name; a refusal reports "Invalid file type." |
| ProjectController.FileUrls | backend/src/controllers/projectController.js:15 | no files give `[]`; otherwise one `/uploads/<filename>` per file, in upload order |
| ProjectController.FindById | backend/src/controllers/projectController.js:98 | the result has the id and comes from the collection; nothing is found iff no project has the id |
| ProjectController.CreateProject | backend/src/controllers/projectController.js:5-31 | a non-Manager gets 401 and nothing is saved; 500 iff the built project fails validation or the save fails; when a Manager's built project validates and the save succeeds, exactly that project is saved and is the 201 reply; a saved project is valid, owned by the requester, carries the upload URLs, has no tasks and the default status |
| ProjectController.GetProjects | backend/src/controllers/projectController.js:33-53 | a Manager gets exactly the projects they manage, a Project Leader exactly those they lead, any other role 403 |
| ProjectController.GetDetailedProjects | backend/src/controllers/projectController.js:55-75 | a Team Member gets 401; for anyone else a failed query gives 500, otherwise they get the project with that id (null when none) and exactly the tasks filed under it |
| ProjectController.GetProjectLeaders | backend/src/controllers/projectController.js:78-89 | a non-Manager gets 401; for a Manager a failed query gives 500, otherwise they get exactly the accounts whose role is Project Leader |
| ProjectController.Updated | backend/src/controllers/projectController.js:107-117 | the update sets the body's fields, keeps a field the body lacks, and keeps id, manager, tasks and status |
| ProjectController.UpdateProject | backend/src/controllers/projectController.js:92-123 | a failing lookup gives 500 and an unknown id 404, both leaving the collection as it was; a failing update gives 500 with no data; otherwise the reply is 200 and the project gets the body's fields and its old files followed by the new URLs; no role is checked |
| ProjectController.UpdateKeepsFiles | backend/src/controllers/projectController.js:104-114 | the old files are a prefix of the new list and the rest are the new URLs |
| ProjectController.UpdateTouchesOnlyTarget | backend/src/controllers/projectController.js:107-117 | only projects with the id change; the collection keeps its length |
| FormFiles.Admitted | frontend/src/pages/AddProject.jsx:29 | the kept files are exactly the picked files of an allowed MIME type |
| FormFiles.AlertIffRejected | frontend/src/pages/AddProject.jsx:29-33 | the length comparison alerts iff some picked file has a type outside the 11; with none, all files are kept as picked |
| FormFiles.AdmittedInOrder | frontend/src/pages/EditProject.jsx:68 | filtering keeps the picked order: two batches filter like one |
| AddProject.AddProjectForm.HandleFileChange | frontend/src/pages/AddProject.jsx:27-36 | the list becomes the old files followed by the admitted ones; alert iff some file was dropped; the text fields are untouched |
| AddProject.AddProjectForm.HandleRemoveFile | frontend/src/pages/AddProject.jsx:38-40 | exactly the file at the index is removed, the rest keep their order; an out-of-range index changes nothing |
| AddProject.AddProjectForm.HandleSubmit | frontend/src/pages/AddProject.jsx:43-61 | alert and no form data iff name, leader or deadline is empty; otherwise the four text fields, then one `files` entry per listed file in list order |
| EditProject.DisplayName | frontend/src/pages/EditProject.jsx:38 | a last segment without a dash displays as "" |
| EditProject.DisplayNameAfterFirstDash | frontend/src/pages/EditProject.jsx:38 | a last segment `t-n` with dash-free `t` displays as `n`, later dashes kept |
| EditProject.StoredPathDisplaysOriginalName | frontend/src/pages/EditProject.jsx:38 | `/uploads/<timestamp>-<name>` displays as `name` when the name has no '/' |
| EditProject.UploadedFilesDisplayAsUploaded | frontend/src/pages/EditProject.jsx:37-40 | every file of a successful upload displays under the name it was uploaded with, and there are at most ten |
| EditProject.FormatFiles | frontend/src/pages/EditProject.jsx:37-40 | each stored path is listed with its display name, in order |
| EditProject.DateOnly | frontend/src/pages/EditProject.jsx:31-33 | the prefilled date is the prefix of the text up to its first 'T': it holds no 'T', is followed by 'T' when shorter than the text, and is the whole text when there is no 'T' |
| EditProject.LeaderField | frontend/src/pages/EditProject.jsx:34 | a populated leader preselects its `_id`; a bare id text or a missing leader preselects "" |
| EditProject.EditProjectForm.Prefill | frontend/src/pages/EditProject.jsx:26-44 | the first project with the route's id fills the form, with "" for a missing name, description or deadline, the leader's `_id` only when the leader is populated, and lists its files; with no such project nothing changes |
| EditProject.EditProjectForm.HandleFileChange | frontend/src/pages/EditProject.jsx:66-75 | new files become the old ones followed by the admitted ones; alert iff some were dropped; existing files untouched |
| EditProject.EditProjectForm.RemoveNewFile | frontend/src/pages/EditProject.jsx:77-79 | exactly the new file at the index is removed; existing files untouched |
| EditProject.EditProjectForm.Submit | frontend/src/pages/EditProject.jsx:81-90 | passes the route id, the four fields and only the new files |
| ProjectContext.ProjectStore.BeginFetchLeaders | frontend/src/context/ProjectContext.jsx:33-34 | loading is on and nothing else changes |
| ProjectContext.ProjectStore.FinishFetchLeaders | frontend/src/context/ProjectContext.jsx:35-53 | loading is off whatever the outcome; leaders are replaced only on success |
| ProjectContext.ProjectStore.CreateProject | frontend/src/context/ProjectContext.jsx:100-122 | success appends the reply's project and returns true; failure changes nothing and returns false |
| ProjectContext.ProjectStore.UpdateFormData | frontend/src/context/ProjectContext.jsx:126-137 | the four fields, then one `files` entry per file in order, none when files are missing |
| ProjectContext.ProjectStore.UpdateProject | frontend/src/context/ProjectContext.jsx:145-159 | success replaces every project with the reply's `_id` and returns true; failure changes nothing and returns false |
| ProjectContext.UpdateReplacesById | frontend/src/context/ProjectContext.jsx:151-153 | the length is kept, matching projects become the reply, the others stay in place |
| ProjectContext.UpdateWithoutMatchKeepsProjects | frontend/src/context/ProjectContext.jsx:151-155 | with no matching `_id` the list is unchanged although success is reported |
| App.AppState.Load | frontend/src/App.jsx:28-33 | state is read from storage, `[]` for an absent key |
| App.AppState.Persist | frontend/src/App.jsx:36-39 | storage holds the current projects and tasks |
| App.AppState.AddProject | frontend/src/App.jsx:41-43 | the project is appended at the end |
| App.AppState.UpdateProject | frontend/src/App.jsx:44-48 | projects with the same `id` are replaced, the others kept |
| App.AppState.AddTask | frontend/src/App.jsx:50-55 | storage and state both become the stored tasks followed by the new one |
| App.AppState.UpdateTask | frontend/src/App.jsx:57-64 | storage and state both become the stored tasks with the same-id tasks replaced |
| App.AppState.DeleteTask | frontend/src/App.jsx:66-71 | storage and state both become the stored tasks without that id |
| App.WithoutTask | frontend/src/App.jsx:68 | no task with the id is left and every other task is kept |
| App.WithoutTaskKeepsOthers | frontend/src/App.jsx:68 | deleting an absent id changes nothing; survivors keep their order |
| App.ReplaceTaskById | frontend/src/App.jsx:59-61 | the length is kept and only tasks with the id change |
| App.Element | frontend/src/App.jsx:75-92 | a route shows its own page or redirects to "/" or "/dashboard" |
| App.ManagerOnlyPages | frontend/src/App.jsx:83-84 | adding and editing projects show only for a Manager, others go to the dashboard |
| App.TaskPages | frontend/src/App.jsx:85-90 | adding a task is Project Leader only, editing one Project Leader or Team Member |
| App.ListPagesNeedARole | frontend/src/App.jsx:82-86 | the project and task lists show iff there is a role, else redirect to "/" |
| App.UnguardedPages | frontend/src/App.jsx:75-92 | every page outside the six guarded routes renders for any user and for none; each guarded route redirects a visitor without a role |
| App.AllUsersUnguarded | frontend/src/App.jsx:80 | the user list renders for any role and for none |
| Sidebar.Badge | frontend/src/components/Sidebar.jsx:48 | the badge is the count iff the count is positive, otherwise none |
| Sidebar.Candidates | frontend/src/components/Sidebar.jsx:37-50 | eight entries, Dashboard first and Meetings then Chat last; without a user every role entry is false |
| Sidebar.Compact | frontend/src/components/Sidebar.jsx:51 | dropping false entries keeps only entries that were present, never more than there were |
| Sidebar.MenuShape | frontend/src/components/Sidebar.jsx:37-51 | after dropping false entries the array is Dashboard, the role's own entries, Meetings, Chat |
| Sidebar.MenuItems | frontend/src/components/Sidebar.jsx:37-51 | the menu is Dashboard, the role's own entries, Meetings, Chat |
| Sidebar.DashboardFirstChatLast | frontend/src/components/Sidebar.jsx:37-51 | Dashboard first, Meetings then Chat last, for every role |
| Sidebar.NoRoleMenu | frontend/src/components/Sidebar.jsx:37-51 | without a known role the menu is exactly Dashboard, Meetings, Chat |
| Sidebar.HighlightAndBadge | frontend/src/components/Sidebar.jsx:44-50 | only Chat is highlighted; only Meetings has a badge, and only for a positive count |
| Sidebar.AllUsersLinkOutsideMenu | frontend/src/components/Sidebar.jsx:37-77 | the All Users link is not a menu entry; whoever sees it also has the Projects and Add Project entries |
| Sidebar.MeetingCount | frontend/src/components/Sidebar.jsx:12-34 | the count is positive only for a Manager or Project Leader whose fetch returned that many meetings |
| Sidebar.BadgeOnlyForFetchingRoles | frontend/src/components/Sidebar.jsx:12-48 | a Team Member or a visitor never sees a badge; a badge shows the fetched number |
| Sidebar.CompactAppend | frontend/src/components/Sidebar.jsx:51 | dropping false entries from a concatenation drops them from each part |
| AllUsers.WithRole | frontend/src/pages/AllUsers.jsx:12-14 | a list holds exactly the users of its role; no users loaded gives `[]` |
| AllUsers.Categorize | frontend/src/pages/AllUsers.jsx:12-14 | each of the three lists holds only users of its own role |
| AllUsers.CategorizeExactly | frontend/src/pages/AllUsers.jsx:12-14 | a user is among managers, leaders or members iff that is their role |
| AllUsers.GroupsDisjoint | frontend/src/pages/AllUsers.jsx:12-14 | the three lists are pairwise disjoint and hold no user of another role |
| AllUsers.GroupsKeepOrder | frontend/src/pages/AllUsers.jsx:12-14 | each list keeps the original order |
| AllUsers.NotLoadedIsEmpty | frontend/src/pages/AllUsers.jsx:12-14 | a null user list gives three empty lists |
| Seqs.Filter | frontend/src/pages/AllUsers.jsx:12 | `filter` keeps exactly the elements satisfying the predicate |
| Seqs.FilterKeepsAll | frontend/src/pages/AddProject.jsx:31 | nothing is dropped iff every element satisfies the predicate |
| Seqs.ReplaceWhere | frontend/src/context/ProjectContext.jsx:151-153 | the length is kept; matching elements become the replacement, the others stay in place |
| Seqs.RemoveIndex | frontend/src/pages/AddProject.jsx:39 | an in-range index removes exactly that element; any other index changes nothing |
| Seqs.Find | frontend/src/pages/EditProject.jsx:27 | the first element satisfying the predicate, or none iff no element does |
| Text.JoinSplit | frontend/src/pages/EditProject.jsx:38 | joining the pieces of a split gives the text back |
| Text.SplitFirstPiece | frontend/src/pages/EditProject.jsx:31 | the first piece of a split is a prefix of the text, followed by the separator when shorter |
| Text.AfterFirstSeparator | frontend/src/pages/EditProject.jsx:38 | `split`, `slice(1)`, `join` leaves what follows the first separator |
| Text.LastPieceAfterLast | frontend/src/pages/EditProject.jsx:38 | `split(...).pop()` is the text after the last separator |
| Transport.ReachedAllExactly | backend/src/routes/meetingRoutes.js:107-109 | a socket is reached iff one of the deliveries reaches it |

## Left out

- Zoom: the OAuth and meeting-creation HTTP calls are not modelled. `createZoomMeeting`
  is the input `Zoom`, either success with an id and join link or failure.
- Persistence: MongoDB and Mongoose's `save`, `find`, `findById`, `populate`, `select`
  and `findByIdAndUpdate` are not modelled. Their results are inputs, and any database
  failure is the flag `dbFails`. This includes a failed ObjectId cast. Response
  message texts are left out.
- Transport: the socket.io server, Express wiring and client sockets are not
  modelled; emits are returned as records.
- Concurrency: each handler runs as one atomic step, so interleaving at `await` points
  is not modelled.
- Files: multer's disk storage and directory creation are not modelled; only the
  decisions and names are.
- Dates: `new Date(...)`, `toISOString` and `Date.now()` are not modelled. Instants
  are integers and the clock is a parameter.
- The rest of the user interface: rendering, navigation, `setTimeout`, and the JSON
  encoding of `localStorage` and HTTP bodies.
- Presence.ChatServer.SendMessage: a registered socket id is treated as truthy. Socket
  ids are never empty.
- MeetingRoutes.Schedule: `scheduledTime` is truthy-checked as text, then the instant
  it casts to is the input `scheduledAt`. A text that does not cast is not modelled.
- MeetingRoutes.MeetingsOf: a failing query (500) is not modelled; the stored meetings
  are the input.
- ProjectUploads.ExtName: models `path.extname` on a base name only. A client file
  name containing '/' is not modelled.
- Text.ToLower: lower-cases ASCII letters only, not the full Unicode case mapping.
- ProjectUploads.UploadFrom: multer's per-file errors are modelled in stream order.
  Its other limits (sizes, field counts) are not set by the routes and are not
  modelled. multer skips a file part whose file name is empty without calling
  `fileFilter` or storing anything; the model passes every part to the filter.
- ProjectController.UpdateProject: a body field that is missing keeps its old value,
  as Mongoose drops undefined keys from an update. An id that does not cast, or a
  failing lookup, is the flag `lookupFails` (500 before any 404); a present but
  uncastable body value counts as a failure of the update, `dbFails`. Ids are unique
  in the collection, so replacing every project with the id updates exactly the one
  found. A project deleted between the lookup and the update (a `null` reply with
  status 200) is not modelled.
- ProjectContext.ClientProject: whether `projectLeader` is populated is part of the
  input (`LeaderRef`); the model does not tie it to the server reply that produced
  the project. Projects from `getProjects` are populated, those appended or replaced
  from the `createProject` and `updateProject` replies are not.
- ProjectController.GetProjects: the `populate` and `select` projections of the
  reply are not modelled; whole projects are returned.
- EditProject.DateOnly: assumes the stored deadline is already ISO text, so that
  `new Date(d).toISOString()` gives `d` back.
- The leader fetch in frontend/src/pages/EditProject.jsx:46-64 is not modelled. It is
  the same request as `ProjectContext.ProjectStore.FinishFetchLeaders`, without the
  loading flag.
- Sidebar: the `fetchAllUsers` call a Manager's sidebar makes
  (frontend/src/components/Sidebar.jsx:14-18) goes into the authentication context,
  which is not part of this model.
- The authentication middleware is not part of this model; `req.user` is a trusted
  input.
