/** The form of frontend/src/pages/AddProject.jsx: its field state, the file list
    edited by `handleFileChange` and `handleRemoveFile`, and the `FormData` that
    `handleSubmit` hands to `createProject`. */
module AddProject {
  import opened Common
  import opened FormFiles
  import Seqs

  const MissingFieldsAlert: string := "Please fill all required fields!"

  class AddProjectForm {
    var projectName: string
    var description: string
    var deadline: string
    var selectedLeader: string
    /** `files`: the picked files, in the order they were added. */
    var files: seq<SelectedFile>

    constructor ()
      ensures projectName == "" && description == "" && deadline == "" && selectedLeader == ""
      ensures files == []
    {
      projectName := "";
      description := "";
      deadline := "";
      selectedLeader := "";
      files := [];
    }

    /** `handleFileChange`: keep the picked files of an allowed type after the files
        already listed, and alert when some were dropped. */
    method HandleFileChange(selected: seq<SelectedFile>) returns (alerted: bool)
      modifies this
      ensures files == old(files) + Admitted(selected)
      ensures alerted <==> exists i :: 0 <= i < |selected| && !AllowedType(selected[i])
      ensures projectName == old(projectName) && description == old(description)
      ensures deadline == old(deadline) && selectedLeader == old(selectedLeader)
    {
      var filtered := Admitted(selected);
      AlertIffRejected(selected);
      alerted := |filtered| != |selected|;
      files := files + filtered;
    }

    /** `handleRemoveFile(index)`: drop the file at `index`, keep the others in order. */
    method HandleRemoveFile(index: int)
      modifies this
      ensures files == Seqs.RemoveIndex(old(files), index)
      ensures projectName == old(projectName) && description == old(description)
      ensures deadline == old(deadline) && selectedLeader == old(selectedLeader)
    {
      files := Seqs.RemoveIndex(files, index);
    }

    /** `handleSubmit`: alert and stop when the name, the leader or the deadline is
        empty; otherwise the four text fields and then one `files` entry per listed
        file, in list order. */
    method HandleSubmit() returns (alerted: bool, formData: Option<seq<FormEntry>>)
      ensures alerted <==> projectName == "" || selectedLeader == "" || deadline == ""
      ensures formData.None? <==> alerted
      ensures formData.Some? ==>
                && |formData.value| == 4 + |files|
                && formData.value[..4] == [Field("name", projectName), Field("description", description),
                                           Field("projectLeader", selectedLeader), Field("deadline", deadline)]
                && forall i :: 0 <= i < |files| ==> formData.value[4 + i] == Attachment("files", files[i])
    {
      if projectName == "" || selectedLeader == "" || deadline == "" {
        return true, None;
      }
      alerted := false;
      var entries := [Field("name", projectName), Field("description", description),
                      Field("projectLeader", selectedLeader), Field("deadline", deadline)];
      var i := 0;
      while i < |files|
        invariant 0 <= i <= |files|
        invariant |entries| == 4 + i
        invariant entries[..4] == [Field("name", projectName), Field("description", description),
                                   Field("projectLeader", selectedLeader), Field("deadline", deadline)]
        invariant forall k :: 0 <= k < i ==> entries[4 + k] == Attachment("files", files[k])
      {
        entries := entries + [Attachment("files", files[i])];
        i := i + 1;
      }
      formData := Some(entries);
    }
  }
}
