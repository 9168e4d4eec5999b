/** The form of frontend/src/pages/EditProject.jsx: the prefill from the project
    being edited, the display names of its stored files, the `newFiles` list and what
    the submit hands to `updateProject`. */
module EditProject {
  import opened Common
  import opened FormFiles
  import Text
  import Seqs
  import ProjectUploads
  import ProjectController
  import ProjectContext

  /** `filePath.split("/").pop().split("-").slice(1).join("-")`: the last path
      segment without everything up to and including its first dash. */
  function DisplayName(filePath: string): (shown: string)
    ensures '-' !in Text.LastPiece(filePath, '/') ==> shown == ""
  {
    var segment := Text.LastPiece(filePath, '/');
    assert '-' !in segment ==> Text.AfterFirst(segment, '-') == "" by {
      if '-' !in segment {
        Text.AfterFirstWithoutSeparator(segment, '-');
      }
    }
    Text.AfterFirst(segment, '-')
  }

  /** Any path whose last segment is a dash-free prefix, a dash and a name gives
      back that name, later dashes included. */
  lemma DisplayNameAfterFirstDash(dir: string, t: string, n: string)
    requires '-' !in t && '/' !in t && '/' !in n
    ensures DisplayName(dir + "/" + t + "-" + n) == n
  {
    var segment := t + "-" + n;
    assert '/' !in segment;
    assert dir + "/" + t + "-" + n == dir + ['/'] + segment;
    Text.LastPieceAfterLast(dir, segment, '/');
    assert segment == t + ['-'] + n;
    Text.AfterFirstSeparator(t, n, '-');
  }

  /** The stored path of an upload, `/uploads/<timestamp>-<name>`, displays as the
      name the user uploaded, provided that name has no '/'. */
  lemma StoredPathDisplaysOriginalName(stamp: nat, originalname: string)
    requires '/' !in originalname
    ensures DisplayName(ProjectController.UploadsPrefix + ProjectUploads.StoredFilename(stamp, originalname)) == originalname
  {
    var digits := Text.Decimal(stamp);
    assert '-' !in digits && '/' !in digits;
    assert ProjectController.UploadsPrefix + ProjectUploads.StoredFilename(stamp, originalname)
        == "/uploads" + "/" + digits + "-" + originalname;
    DisplayNameAfterFirstDash("/uploads", digits, originalname);
  }

  /** Every file a successful upload attached to a project shows, in the edit form,
      under the name it was uploaded with. */
  lemma UploadedFilesDisplayAsUploaded(parts: seq<ProjectUploads.Part>, stamps: seq<nat>)
    requires |stamps| == |parts|
    requires ProjectUploads.UploadFiles(parts, stamps).Uploaded?
    requires forall i :: 0 <= i < |parts| ==> '/' !in parts[i].originalname
    ensures var urls := ProjectController.FileUrls(Some(ProjectUploads.UploadFiles(parts, stamps).files));
            && |urls| == |parts| <= ProjectUploads.MaxFiles
            && forall i :: 0 <= i < |urls| ==> DisplayName(urls[i]) == parts[i].originalname
  {
    var files := ProjectUploads.UploadFiles(parts, stamps).files;
    var urls := ProjectController.FileUrls(Some(files));
    forall i | 0 <= i < |urls|
      ensures DisplayName(urls[i]) == parts[i].originalname
    {
      StoredPathDisplaysOriginalName(stamps[i], parts[i].originalname);
    }
  }

  /** An existing file as the form lists it. */
  datatype ExistingFile = ExistingFile(fullPath: string, fileName: string)

  /** `projectToEdit.files.map(...)`: each path with its display name, in order. */
  function FormatFiles(paths: seq<string>): (r: seq<ExistingFile>)
    ensures |r| == |paths|
    ensures forall i :: 0 <= i < |r| ==> r[i].fullPath == paths[i] && r[i].fileName == DisplayName(paths[i])
  {
    seq(|paths|, i requires 0 <= i < |paths| => ExistingFile(paths[i], DisplayName(paths[i])))
  }

  /** The date part of an ISO date-time: the text before the first 'T'. */
  function DateOnly(iso: string): (d: string)
    ensures 'T' !in d
    ensures d <= iso && (|d| < |iso| ==> iso[|d|] == 'T')
    ensures 'T' !in iso ==> d == iso
  {
    Text.SplitFirstPiece(iso, 'T');
    assert 'T' !in iso ==> Text.Split(iso, 'T') == [iso] by {
      if 'T' !in iso {
        Text.SplitWithoutSeparator(iso, 'T');
      }
    }
    Text.Split(iso, 'T')[0]
  }

  /** `projectLeader?._id || ""`: the id of a populated leader; a bare id text has
      no `_id` property, so it preselects no leader. */
  function LeaderField(leader: Option<ProjectContext.LeaderRef>): (selected: Id)
    ensures leader.Some? && leader.value.Populated? ==> selected == leader.value.id
    ensures (leader.None? || leader.value.Unpopulated?) ==> selected == ""
  {
    match leader
    case Some(Populated(id, _)) => id
    case _ => ""
  }

  class EditProjectForm {
    /** The `:id` of the route. */
    const id: Id
    var projectName: string
    var description: string
    var deadline: string
    var selectedLeader: string
    var existingFiles: seq<ExistingFile>
    var newFiles: seq<SelectedFile>

    constructor (id: Id)
      ensures this.id == id
      ensures projectName == "" && description == "" && deadline == "" && selectedLeader == ""
      ensures existingFiles == [] && newFiles == []
    {
      this.id := id;
      projectName := "";
      description := "";
      deadline := "";
      selectedLeader := "";
      existingFiles := [];
      newFiles := [];
    }

    /** The prefill effect: when a project has the route's id, copy its fields, with
        "" for a missing name, description, deadline or leader, and list its files;
        otherwise leave the form as it is. */
    method Prefill(projects: seq<ProjectContext.ClientProject>)
      modifies this
      ensures var p := Seqs.Find(projects, (q: ProjectContext.ClientProject) => q.id == id);
              if p.None? then
                && projectName == old(projectName) && description == old(description)
                && deadline == old(deadline) && selectedLeader == old(selectedLeader)
                && existingFiles == old(existingFiles)
              else
                && projectName == p.value.name.GetOr("")
                && description == p.value.description.GetOr("")
                && deadline == (if Truthy(p.value.deadline) then DateOnly(p.value.deadline.value) else "")
                && selectedLeader == LeaderField(p.value.projectLeader)
                && existingFiles == (if p.value.files.Some? then FormatFiles(p.value.files.value) else old(existingFiles))
      ensures newFiles == old(newFiles)
    {
      var p := Seqs.Find(projects, (q: ProjectContext.ClientProject) => q.id == id);
      if p.None? {
        return;
      }
      var project := p.value;
      projectName := project.name.GetOr("");
      description := project.description.GetOr("");
      deadline := if Truthy(project.deadline) then DateOnly(project.deadline.value) else "";
      selectedLeader := LeaderField(project.projectLeader);
      if project.files.Some? {
        existingFiles := FormatFiles(project.files.value);
      }
    }

    /** `handleFileChange`: append the picked files of an allowed type to `newFiles`
        and alert when some were dropped. */
    method HandleFileChange(selected: seq<SelectedFile>) returns (alerted: bool)
      modifies this
      ensures newFiles == old(newFiles) + Admitted(selected)
      ensures alerted <==> exists i :: 0 <= i < |selected| && !AllowedType(selected[i])
      ensures existingFiles == old(existingFiles)
      ensures projectName == old(projectName) && description == old(description)
      ensures deadline == old(deadline) && selectedLeader == old(selectedLeader)
    {
      var filtered := Admitted(selected);
      AlertIffRejected(selected);
      alerted := |filtered| != |selected|;
      newFiles := newFiles + filtered;
    }

    /** `removeNewFile(index)`: drop the new file at `index`. */
    method RemoveNewFile(index: int)
      modifies this
      ensures newFiles == Seqs.RemoveIndex(old(newFiles), index)
      ensures existingFiles == old(existingFiles)
      ensures projectName == old(projectName) && description == old(description)
      ensures deadline == old(deadline) && selectedLeader == old(selectedLeader)
    {
      newFiles := Seqs.RemoveIndex(newFiles, index);
    }

    /** `handleSubmit`: the arguments of `updateProject(id, updatedProject, newFiles)`.
        The existing files are neither sent nor touched. */
    method Submit() returns (projectId: Id, fields: ProjectContext.ProjectFields, files: seq<SelectedFile>)
      ensures projectId == id
      ensures fields == ProjectContext.ProjectFields(projectName, description, selectedLeader, deadline)
      ensures files == newFiles
    {
      projectId := id;
      fields := ProjectContext.ProjectFields(projectName, description, selectedLeader, deadline);
      files := newFiles;
    }
  }
}
