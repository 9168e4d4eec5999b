/** The root component of frontend/src/App.jsx: its `projects` and `tasks` state kept
    in step with `localStorage`, the list operations it passes to pages, and the
    role guards on its routes. A stored list is `None` when its key is absent. */
module App {
  import opened Common
  import Seqs

  /** A project kept in the browser, identified by `id`. */
  datatype LocalProject = LocalProject(id: Id, name: string, deadline: string)

  /** A task kept in the browser, identified by `id`. */
  datatype LocalTask = LocalTask(id: Id, projectId: Id, title: string, status: string)

  /** `storedTasks.filter((task) => task.id !== taskId)`. */
  function WithoutTask(tasks: seq<LocalTask>, taskId: Id): (r: seq<LocalTask>)
    ensures forall i :: 0 <= i < |r| ==> r[i].id != taskId && r[i] in tasks
    ensures forall i :: 0 <= i < |tasks| && tasks[i].id != taskId ==> tasks[i] in r
  {
    Seqs.Filter(tasks, (t: LocalTask) => t.id != taskId)
  }

  /** Deleting an id no task has leaves the list as it is; deleting from a
      concatenation deletes from each part, so the survivors keep their order. */
  lemma WithoutTaskKeepsOthers(tasks: seq<LocalTask>, more: seq<LocalTask>, taskId: Id)
    ensures (forall i :: 0 <= i < |tasks| ==> tasks[i].id != taskId) ==> WithoutTask(tasks, taskId) == tasks
    ensures WithoutTask(tasks + more, taskId) == WithoutTask(tasks, taskId) + WithoutTask(more, taskId)
  {
    Seqs.FilterKeepsAll(tasks, (t: LocalTask) => t.id != taskId);
    Seqs.FilterAppend(tasks, more, (t: LocalTask) => t.id != taskId);
  }

  /** A task replaced by id keeps the list's length; only tasks with that id change. */
  lemma ReplaceTaskById(tasks: seq<LocalTask>, updated: LocalTask)
    ensures var r := Seqs.ReplaceWhere(tasks, (t: LocalTask) => t.id == updated.id, updated);
            && |r| == |tasks|
            && (forall i :: 0 <= i < |tasks| && tasks[i].id == updated.id ==> r[i] == updated)
            && (forall i :: 0 <= i < |tasks| && tasks[i].id != updated.id ==> r[i] == tasks[i])
  {
  }

  class AppState {
    var projects: seq<LocalProject>
    var tasks: seq<LocalTask>
    /** `localStorage` under "projects" and "tasks". */
    var storedProjects: Option<seq<LocalProject>>
    var storedTasks: Option<seq<LocalTask>>

    constructor (storedProjects: Option<seq<LocalProject>>, storedTasks: Option<seq<LocalTask>>)
      ensures projects == [] && tasks == []
      ensures this.storedProjects == storedProjects && this.storedTasks == storedTasks
    {
      projects := [];
      tasks := [];
      this.storedProjects := storedProjects;
      this.storedTasks := storedTasks;
    }

    /** The mount effect: state from storage, `[]` for an absent key. */
    method Load()
      modifies this
      ensures projects == old(storedProjects).GetOr([]) && tasks == old(storedTasks).GetOr([])
      ensures storedProjects == old(storedProjects) && storedTasks == old(storedTasks)
    {
      projects := storedProjects.GetOr([]);
      tasks := storedTasks.GetOr([]);
    }

    /** The effect that runs after each change of `projects` or `tasks`. */
    method Persist()
      modifies this
      ensures storedProjects == Some(projects) && storedTasks == Some(tasks)
      ensures projects == old(projects) && tasks == old(tasks)
    {
      storedProjects := Some(projects);
      storedTasks := Some(tasks);
    }

    /** `addProject`: the new project goes at the end. */
    method AddProject(p: LocalProject)
      modifies this
      ensures projects == old(projects) + [p]
      ensures tasks == old(tasks) && storedProjects == old(storedProjects) && storedTasks == old(storedTasks)
    {
      projects := projects + [p];
    }

    /** `updateProject`: every project with the same `id` becomes `p`. */
    method UpdateProject(p: LocalProject)
      modifies this
      ensures projects == Seqs.ReplaceWhere(old(projects), (q: LocalProject) => q.id == p.id, p)
      ensures tasks == old(tasks) && storedProjects == old(storedProjects) && storedTasks == old(storedTasks)
    {
      projects := Seqs.ReplaceWhere(projects, (q: LocalProject) => q.id == p.id, p);
    }

    /** `addTask`: the stored tasks followed by the new one, written to storage and
        to state; whatever the state held before is not consulted. */
    method AddTask(t: LocalTask)
      modifies this
      ensures storedTasks == Some(old(storedTasks).GetOr([]) + [t])
      ensures tasks == storedTasks.value
      ensures projects == old(projects) && storedProjects == old(storedProjects)
    {
      var updatedTasks := storedTasks.GetOr([]) + [t];
      storedTasks := Some(updatedTasks);
      tasks := updatedTasks;
    }

    /** `updateTask`: the stored tasks with every task of the same `id` replaced. */
    method UpdateTask(t: LocalTask)
      modifies this
      ensures storedTasks == Some(Seqs.ReplaceWhere(old(storedTasks).GetOr([]), (u: LocalTask) => u.id == t.id, t))
      ensures tasks == storedTasks.value
      ensures projects == old(projects) && storedProjects == old(storedProjects)
    {
      var updatedTasks := Seqs.ReplaceWhere(storedTasks.GetOr([]), (u: LocalTask) => u.id == t.id, t);
      storedTasks := Some(updatedTasks);
      tasks := updatedTasks;
    }

    /** `deleteTask`: the stored tasks without any task of that `id`. */
    method DeleteTask(taskId: Id)
      modifies this
      ensures storedTasks == Some(WithoutTask(old(storedTasks).GetOr([]), taskId))
      ensures tasks == storedTasks.value
      ensures projects == old(projects) && storedProjects == old(storedProjects)
    {
      var updatedTasks := WithoutTask(storedTasks.GetOr([]), taskId);
      storedTasks := Some(updatedTasks);
      tasks := updatedTasks;
    }
  }

  /** The pages the router can show. */
  datatype Page =
    | Login | Register | Dashboard | Profile | AllUsers | DetailedProject | ProjectList
    | AddProject | EditProject | AddTask | TaskList | ViewTasks | MyTasks | UpdateTask
    | EditTask | Chat | MeetingList

  /** What a route renders: its page, or a redirect. */
  datatype Screen = Show(page: Page) | Navigate(to: string)

  /** The `element` of each route for a user whose role is `role` (`None` when
      there is no user or no role). */
  function Element(page: Page, role: Option<string>): (s: Screen)
    ensures s.Show? ==> s.page == page
    ensures s.Navigate? ==> s.to == "/" || s.to == "/dashboard"
  {
    match page
    case ProjectList | TaskList => if Truthy(role) then Show(page) else Navigate("/")
    case AddProject | EditProject => if role == Some(Manager) then Show(page) else Navigate("/dashboard")
    case AddTask => if role == Some(ProjectLeader) then Show(page) else Navigate("/dashboard")
    case EditTask =>
      if role == Some(ProjectLeader) || role == Some(TeamMember) then Show(page) else Navigate("/dashboard")
    case _ => Show(page)
  }

  /** Project creation and editing render only for a Manager; anyone else lands on
      the dashboard. */
  lemma ManagerOnlyPages(page: Page, role: Option<string>)
    requires page == AddProject || page == EditProject
    ensures Element(page, role) == (if role == Some(Manager) then Show(page) else Navigate("/dashboard"))
  {
  }

  /** Adding a task is for a Project Leader only, editing one for a Project Leader or
      a Team Member; a Manager is sent to the dashboard for both. */
  lemma TaskPages(role: Option<string>)
    ensures Element(AddTask, role).Show? <==> role == Some(ProjectLeader)
    ensures Element(EditTask, role).Show? <==> role == Some(ProjectLeader) || role == Some(TeamMember)
    ensures Element(AddTask, Some(Manager)) == Navigate("/dashboard")
    ensures Element(EditTask, Some(Manager)) == Navigate("/dashboard")
  {
  }

  /** The project and task lists need some role; without one the user is sent to
      the login page. */
  lemma ListPagesNeedARole(page: Page, role: Option<string>)
    requires page == ProjectList || page == TaskList
    ensures Element(page, role).Show? <==> Truthy(role)
    ensures !Truthy(role) ==> Element(page, role) == Navigate("/")
  {
  }

  /** Exactly the six guarded routes can redirect: every other page renders for
      every user, and each guarded one redirects a visitor without a role. */
  lemma UnguardedPages(page: Page, role: Option<string>)
    ensures page !in {ProjectList, TaskList, AddProject, EditProject, AddTask, EditTask} ==>
              Element(page, role) == Show(page)
    ensures page in {ProjectList, TaskList, AddProject, EditProject, AddTask, EditTask} ==>
              Element(page, None).Navigate?
  {
  }

  /** The user list has no guard at all: it renders with any role and with none. */
  lemma AllUsersUnguarded(role: Option<string>)
    ensures Element(AllUsers, role) == Show(AllUsers)
  {
  }
}
