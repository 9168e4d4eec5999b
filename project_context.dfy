/** The project state of frontend/src/context/ProjectContext.jsx: the `projects` and
    `leaders` lists, the `loadingLeaders` flag, and the list updates `createProject`
    and `updateProject` make once the server has answered. Every `fetch` is replaced
    by its outcome: `None` for a non-OK response or a thrown error, otherwise the
    parsed JSON. */
module ProjectContext {
  import opened Common
  import opened FormFiles
  import Seqs

  /** The `projectLeader` of a project's JSON. The project lists of `getProjects`
      populate it into an object with a `name` and an `_id`; the replies of
      `createProject` and `updateProject` carry the bare id text. */
  datatype LeaderRef = Populated(id: Id, name: string) | Unpopulated(id: Id)

  /** A project as the server's JSON gives it to the client; `deadline` is the ISO
      text of the date. */
  datatype ClientProject = ClientProject(
    id: Id,
    name: Option<string>,
    description: Option<string>,
    projectLeader: Option<LeaderRef>,
    deadline: Option<string>,
    files: Option<seq<string>>,
    status: Option<string>)

  /** The `updatedProject` argument of `updateProject`. */
  datatype ProjectFields = ProjectFields(name: string, description: string, projectLeader: Id, deadline: string)

  class ProjectStore {
    var projects: seq<ClientProject>
    var leaders: seq<Account>
    var loadingLeaders: bool

    /** The initial state: no projects, no leaders, and leaders counted as loading. */
    constructor ()
      ensures projects == [] && leaders == [] && loadingLeaders
    {
      projects := [];
      leaders := [];
      loadingLeaders := true;
    }

    /** The start of `fetchLeaders`. */
    method BeginFetchLeaders()
      modifies this
      ensures loadingLeaders
      ensures leaders == old(leaders) && projects == old(projects)
    {
      loadingLeaders := true;
    }

    /** The end of `fetchLeaders`: the leaders are replaced only on success, and the
        flag drops in the `finally` whatever the outcome. */
    method FinishFetchLeaders(response: Option<seq<Account>>)
      modifies this
      ensures !loadingLeaders
      ensures leaders == (if response.Some? then response.value else old(leaders))
      ensures projects == old(projects)
    {
      if response.Some? {
        leaders := response.value;
      }
      loadingLeaders := false;
    }

    /** `createProject` once the server answered: on success append the reply's
        `project` and report true; on failure change nothing and report false. */
    method CreateProject(response: Option<ClientProject>) returns (ok: bool)
      modifies this
      ensures ok <==> response.Some?
      ensures ok ==> projects == old(projects) + [response.value]
      ensures !ok ==> projects == old(projects)
      ensures leaders == old(leaders) && loadingLeaders == old(loadingLeaders)
    {
      if response.None? {
        return false;
      }
      projects := projects + [response.value];
      ok := true;
    }

    /** The `FormData` `updateProject` sends: the four fields, then one `files` entry
        per file, none when `files` is missing. */
    method UpdateFormData(fields: ProjectFields, files: Option<seq<SelectedFile>>) returns (formData: seq<FormEntry>)
      ensures files.None? ==> |formData| == 4
      ensures files.Some? ==> |formData| == 4 + |files.value|
      ensures formData[..4] == [Field("name", fields.name), Field("description", fields.description),
                                Field("projectLeader", fields.projectLeader), Field("deadline", fields.deadline)]
      ensures files.Some? ==> forall i :: 0 <= i < |files.value| ==> formData[4 + i] == Attachment("files", files.value[i])
    {
      formData := [Field("name", fields.name), Field("description", fields.description),
                   Field("projectLeader", fields.projectLeader), Field("deadline", fields.deadline)];
      if files.Some? {
        var fs := files.value;
        for i := 0 to |fs|
          invariant |formData| == 4 + i
          invariant formData[..4] == [Field("name", fields.name), Field("description", fields.description),
                                      Field("projectLeader", fields.projectLeader), Field("deadline", fields.deadline)]
          invariant forall k :: 0 <= k < i ==> formData[4 + k] == Attachment("files", fs[k])
        {
          formData := formData + [Attachment("files", fs[i])];
        }
      }
    }

    /** `updateProject` once the server answered: on success every project whose
        `_id` is the reply's `_id` becomes the reply, and true is reported even when
        none matched; on failure nothing changes and false is reported. */
    method UpdateProject(response: Option<ClientProject>) returns (ok: bool)
      modifies this
      ensures ok <==> response.Some?
      ensures ok ==> projects == Seqs.ReplaceWhere(old(projects), (p: ClientProject) => p.id == response.value.id, response.value)
      ensures !ok ==> projects == old(projects)
      ensures leaders == old(leaders) && loadingLeaders == old(loadingLeaders)
    {
      if response.None? {
        return false;
      }
      var data := response.value;
      projects := Seqs.ReplaceWhere(projects, (p: ClientProject) => p.id == data.id, data);
      ok := true;
    }
  }

  /** A successful update keeps the number of projects, puts the reply where the id
      matched, and leaves every other project as it was, in place. */
  lemma UpdateReplacesById(projects: seq<ClientProject>, data: ClientProject)
    ensures var after := Seqs.ReplaceWhere(projects, (p: ClientProject) => p.id == data.id, data);
            && |after| == |projects|
            && (forall i :: 0 <= i < |projects| && projects[i].id == data.id ==> after[i] == data)
            && (forall i :: 0 <= i < |projects| && projects[i].id != data.id ==> after[i] == projects[i])
  {
  }

  /** When no project has the reply's id the list is unchanged, although
      `updateProject` still reports success. */
  lemma UpdateWithoutMatchKeepsProjects(projects: seq<ClientProject>, data: ClientProject)
    requires forall i :: 0 <= i < |projects| ==> projects[i].id != data.id
    ensures Seqs.ReplaceWhere(projects, (p: ClientProject) => p.id == data.id, data) == projects
  {
    Seqs.ReplaceWithoutMatch(projects, (p: ClientProject) => p.id == data.id, data);
  }
}
