/** The request handlers of backend/src/controllers/projectController.js. The
    authenticated `req.user` is a trusted input; every database query is replaced by
    the collection it reads (`projects`, `tasks`, `users`) and every failure of the
    database by the flag `dbFails`. Responses are a status code and an optional body. */
module ProjectController {
  import opened Common
  import opened ProjectModel
  import ProjectUploads
  import Seqs

  /** `req.user` as the authentication middleware sets it. */
  datatype Requester = Requester(id: Id, role: string)

  /** A task document, reduced to what the handlers look at. */
  datatype TaskDoc = TaskDoc(id: Id, projectId: Id, title: string, assignedTo: Id)

  /** An HTTP response: its status and, when the handler sends one, its data. */
  datatype Reply<T> = Reply(status: nat, data: Option<T>)

  const UploadsPrefix: string := "/uploads/"

  /** `req.files ? req.files.map(file => `/uploads/${file.filename}`) : []`. */
  function FileUrls(files: Option<seq<ProjectUploads.StoredFile>>): (urls: seq<string>)
    ensures files.None? ==> urls == []
    ensures files.Some? ==> |urls| == |files.value|
    ensures files.Some? ==> forall i :: 0 <= i < |urls| ==> urls[i] == UploadsPrefix + files.value[i].filename
  {
    match files
    case None => []
    case Some(fs) => seq(|fs|, i requires 0 <= i < |fs| => UploadsPrefix + fs[i].filename)
  }

  /** The first project whose `_id` is `id` (`Project.findById`). */
  function FindById(projects: seq<Project>, id: Id): (r: Option<Project>)
    ensures r.Some? ==> r.value in projects && r.value.id == id
    ensures r.None? <==> forall i :: 0 <= i < |projects| ==> projects[i].id != id
  {
    Seqs.Find(projects, (p: Project) => p.id == id)
  }

  /** `req.body` of the create route, as multer's text fields. `deadline` is the
      instant `new Date(deadline)` denotes, `None` when the text is missing or no date. */
  datatype CreateBody = CreateBody(name: Option<string>, description: Option<string>,
                                   projectLeader: Option<Id>, deadline: Option<int>)

  /** `createProject`: only a Manager may create; the project is built from the body,
      owned by the requester and carrying the upload URLs; `save()` validates it. */
  method CreateProject(user: Requester, body: CreateBody, files: Option<seq<ProjectUploads.StoredFile>>,
                       newId: Id, dbFails: bool)
    returns (saved: Option<Project>, reply: Reply<Project>)
    ensures user.role != Manager ==> reply.status == 401 && saved.None?
    ensures saved.Some? <==> reply.status == 201
    ensures saved.Some? ==> reply.data == saved
    ensures reply.status == 500 <==>
              user.role == Manager && (dbFails || !Valid(Create(newId, body.name.GetOr(""), body.description.GetOr(""),
                                                             user.id, body.projectLeader.GetOr(""), body.deadline,
                                                             FileUrls(files))))
    ensures user.role == Manager && !dbFails &&
            Valid(Create(newId, body.name.GetOr(""), body.description.GetOr(""), user.id,
                         body.projectLeader.GetOr(""), body.deadline, FileUrls(files))) ==>
              && reply.status == 201
              && saved == Some(Create(newId, body.name.GetOr(""), body.description.GetOr(""), user.id,
                                      body.projectLeader.GetOr(""), body.deadline, FileUrls(files)))
    ensures saved.Some? ==>
              && Valid(saved.value)
              && saved.value.managerId == user.id
              && saved.value.projectLeader == body.projectLeader.value
              && saved.value.deadline == body.deadline
              && saved.value.files == FileUrls(files)
              && saved.value.tasks == []
              && saved.value.status == DefaultStatus
  {
    saved := None;
    if user.role != Manager {
      reply := Reply(401, None);
      return;
    }
    var fileUrls := FileUrls(files);
    var project := Create(newId, body.name.GetOr(""), body.description.GetOr(""), user.id,
                          body.projectLeader.GetOr(""), body.deadline, fileUrls);
    if !Valid(project) || dbFails {
      reply := Reply(500, None);
      return;
    }
    CreatedValidIff(newId, body.name.GetOr(""), body.description.GetOr(""), user.id,
                    body.projectLeader.GetOr(""), body.deadline, fileUrls);
    saved := Some(project);
    reply := Reply(201, saved);
  }

  /** `getProjects`: a Manager sees the projects they manage, a Project Leader the
      projects they lead, anyone else is refused with 403. */
  method GetProjects(user: Requester, projects: seq<Project>, dbFails: bool) returns (reply: Reply<seq<Project>>)
    ensures user.role != Manager && user.role != ProjectLeader ==> reply == Reply(403, None)
    ensures (user.role == Manager || user.role == ProjectLeader) && dbFails ==> reply == Reply(500, None)
    ensures reply.status == 200 <==> (user.role == Manager || user.role == ProjectLeader) && !dbFails
    ensures reply.status == 200 ==> reply.data.Some?
    ensures reply.status == 200 && user.role == Manager ==>
              (forall i :: 0 <= i < |reply.data.value| ==>
                 reply.data.value[i] in projects && reply.data.value[i].managerId == user.id) &&
              (forall i :: 0 <= i < |projects| && projects[i].managerId == user.id ==>
                 projects[i] in reply.data.value)
    ensures reply.status == 200 && user.role == ProjectLeader ==>
              (forall i :: 0 <= i < |reply.data.value| ==>
                 reply.data.value[i] in projects && reply.data.value[i].projectLeader == user.id) &&
              (forall i :: 0 <= i < |projects| && projects[i].projectLeader == user.id ==>
                 projects[i] in reply.data.value)
  {
    var found: seq<Project>;
    if user.role == Manager {
      found := Seqs.Filter(projects, (p: Project) => p.managerId == user.id);
    } else if user.role == ProjectLeader {
      found := Seqs.Filter(projects, (p: Project) => p.projectLeader == user.id);
    } else {
      return Reply(403, None);
    }
    if dbFails {
      return Reply(500, None);
    }
    reply := Reply(200, Some(found));
  }

  /** The body of a `getDetailedProjects` reply: the project (null when no project
      has that id) and the tasks filed under that id. */
  datatype Details = Details(projectData: Option<Project>, taskData: seq<TaskDoc>)

  /** `getDetailedProjects`: refused with 401 to a Team Member, otherwise the project
      and its tasks. */
  method GetDetailedProjects(user: Requester, projectId: Id, projects: seq<Project>, tasks: seq<TaskDoc>,
                             dbFails: bool) returns (reply: Reply<Details>)
    ensures user.role == TeamMember ==> reply == Reply(401, None)
    ensures user.role != TeamMember && dbFails ==> reply == Reply(500, None)
    ensures reply.status == 200 <==> user.role != TeamMember && !dbFails
    ensures reply.status != 200 ==> reply.data.None?
    ensures reply.status == 200 ==>
              && reply.data.Some?
              && reply.data.value.projectData == FindById(projects, projectId)
              && (forall i :: 0 <= i < |reply.data.value.taskData| ==>
                    reply.data.value.taskData[i] in tasks && reply.data.value.taskData[i].projectId == projectId)
              && (forall i :: 0 <= i < |tasks| && tasks[i].projectId == projectId ==>
                    tasks[i] in reply.data.value.taskData)
  {
    if user.role == TeamMember {
      return Reply(401, None);
    }
    if dbFails {
      return Reply(500, None);
    }
    var projectData := FindById(projects, projectId);
    var taskData := Seqs.Filter(tasks, (t: TaskDoc) => t.projectId == projectId);
    reply := Reply(200, Some(Details(projectData, taskData)));
  }

  /** `getProjectLeaders`: a Manager gets every account whose role is Project Leader. */
  method GetProjectLeaders(user: Requester, users: seq<Account>, dbFails: bool) returns (reply: Reply<seq<Account>>)
    ensures user.role != Manager ==> reply == Reply(401, None)
    ensures user.role == Manager && dbFails ==> reply == Reply(500, None)
    ensures reply.status == 200 <==> user.role == Manager && !dbFails
    ensures reply.status != 200 ==> reply.data.None?
    ensures reply.status == 200 ==>
              && reply.data.Some?
              && (forall i :: 0 <= i < |reply.data.value| ==>
                    reply.data.value[i] in users && reply.data.value[i].role == ProjectLeader)
              && (forall i :: 0 <= i < |users| && users[i].role == ProjectLeader ==> users[i] in reply.data.value)
  {
    if user.role != Manager {
      return Reply(401, None);
    }
    if dbFails {
      return Reply(500, None);
    }
    reply := Reply(200, Some(Seqs.Filter(users, (u: Account) => u.role == ProjectLeader)));
  }

  /** `req.body` of the update route. A field that is missing is left as it was. */
  datatype UpdateBody = UpdateBody(name: Option<string>, description: Option<string>,
                                   projectLeader: Option<Id>, deadline: Option<int>)

  /** The project after `findByIdAndUpdate` with the body and the file list `files`. */
  function Updated(p: Project, body: UpdateBody, files: seq<string>): (q: Project)
    ensures q.id == p.id && q.managerId == p.managerId && q.tasks == p.tasks && q.status == p.status
    ensures q.files == files
    ensures q.name == body.name.GetOr(p.name) && q.description == body.description.GetOr(p.description)
    ensures q.projectLeader == body.projectLeader.GetOr(p.projectLeader)
    ensures q.deadline == (if body.deadline.Some? then body.deadline else p.deadline)
  {
    p.(name := body.name.GetOr(p.name),
       description := body.description.GetOr(p.description),
       projectLeader := body.projectLeader.GetOr(p.projectLeader),
       deadline := if body.deadline.Some? then body.deadline else p.deadline,
       files := files)
  }

  /** `updateProject`: 500 when the lookup by id throws (an id that is not an
      ObjectId, or a database error); 404 when no project has the id; otherwise the
      project takes the body's fields and its old files followed by the new upload
      URLs. No role is checked and no validator runs. `after` is the collection once
      the handler ends; `lookupFails` is a failure of `findById`, `dbFails` a failure
      of the update itself. */
  method UpdateProject(projects: seq<Project>, id: Id, body: UpdateBody,
                       files: Option<seq<ProjectUploads.StoredFile>>, lookupFails: bool, dbFails: bool)
    returns (after: seq<Project>, reply: Reply<Project>)
    ensures lookupFails ==> reply == Reply(500, None) && after == projects
    ensures !lookupFails && FindById(projects, id).None? ==> reply == Reply(404, None) && after == projects
    ensures !lookupFails && FindById(projects, id).Some? && dbFails ==> reply == Reply(500, None) && after == projects
    ensures dbFails ==> after == projects && reply.data.None?
    ensures reply.status == 200 <==> !lookupFails && FindById(projects, id).Some? && !dbFails
    ensures reply.status == 200 ==>
              var existing := FindById(projects, id).value;
              && reply.data == Some(Updated(existing, body, existing.files + FileUrls(files)))
              && after == Seqs.ReplaceWhere(projects, (p: Project) => p.id == id, reply.data.value)
  {
    after := projects;
    if lookupFails {
      return after, Reply(500, None);
    }
    var existing := FindById(projects, id);
    if existing.None? {
      return after, Reply(404, None);
    }
    if dbFails {
      return after, Reply(500, None);
    }
    var current := existing.value;
    var updated := Updated(current, body, current.files + FileUrls(files));
    after := Seqs.ReplaceWhere(projects, (p: Project) => p.id == id, updated);
    reply := Reply(200, Some(updated));
  }

  /** An update never drops or reorders a file: the old list is a prefix of the new
      one, and the rest are the new uploads in upload order. */
  lemma UpdateKeepsFiles(p: Project, body: UpdateBody, files: Option<seq<ProjectUploads.StoredFile>>)
    ensures var q := Updated(p, body, p.files + FileUrls(files));
            && p.files <= q.files
            && q.files[|p.files|..] == FileUrls(files)
            && |q.files| == |p.files| + |FileUrls(files)|
  {
  }

  /** The update replaces only the project with that id: every other project is
      unchanged and in place, and the collection keeps its length. */
  lemma UpdateTouchesOnlyTarget(projects: seq<Project>, id: Id, q: Project)
    ensures var after := Seqs.ReplaceWhere(projects, (p: Project) => p.id == id, q);
            && |after| == |projects|
            && (forall i :: 0 <= i < |projects| && projects[i].id != id ==> after[i] == projects[i])
            && (forall i :: 0 <= i < |projects| && projects[i].id == id ==> after[i] == q)
  {
  }
}
