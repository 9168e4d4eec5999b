/** What the project forms of frontend/src/pages/AddProject.jsx and
    frontend/src/pages/EditProject.jsx share: the files a user picks, the MIME types
    both forms admit, and the entries of a multipart `FormData`. */
module FormFiles {
  import Seqs

  /** A browser `File`, reduced to its name and its MIME `type`. */
  datatype SelectedFile = SelectedFile(name: string, mimeType: string)

  /** `allowedFileTypes`, the same eleven types in both forms. */
  const AllowedFileTypes: seq<string> := [
    "text/plain", "application/pdf", "application/msword",
    "application/vnd.openxmlformats-officedocument.wordprocessingml.document",
    "application/vnd.ms-excel", "application/vnd.openxmlformats-officedocument.spreadsheetml.sheet",
    "application/vnd.ms-powerpoint", "application/vnd.openxmlformats-officedocument.presentationml.presentation",
    "application/sql", "image/png", "image/jpeg"]

  const RejectedFilesAlert: string := "Some files were not accepted due to invalid file type."

  predicate AllowedType(f: SelectedFile) {
    f.mimeType in AllowedFileTypes
  }

  /** `selectedFiles.filter(file => allowedFileTypes.includes(file.type))`. */
  function Admitted(selected: seq<SelectedFile>): (r: seq<SelectedFile>)
    ensures forall i :: 0 <= i < |r| ==> AllowedType(r[i]) && r[i] in selected
    ensures forall i :: 0 <= i < |selected| && AllowedType(selected[i]) ==> selected[i] in r
  {
    Seqs.Filter(selected, AllowedType)
  }

  /** The forms alert, by comparing lengths, exactly when some picked file has a type
      outside the list; when none does, every picked file is kept as picked. */
  lemma AlertIffRejected(selected: seq<SelectedFile>)
    ensures |Admitted(selected)| != |selected| <==> exists i :: 0 <= i < |selected| && !AllowedType(selected[i])
    ensures (forall i :: 0 <= i < |selected| ==> AllowedType(selected[i])) ==> Admitted(selected) == selected
  {
    Seqs.FilterKeepsAll(selected, AllowedType);
  }

  /** Picking files in two batches admits the same files, in the same order, as
      picking them in one. */
  lemma AdmittedInOrder(a: seq<SelectedFile>, b: seq<SelectedFile>)
    ensures Admitted(a + b) == Admitted(a) + Admitted(b)
  {
    Seqs.FilterAppend(a, b, AllowedType);
  }

  /** One `formData.append(key, value)`: a text field or a file. */
  datatype FormEntry = Field(key: string, value: string) | Attachment(key: string, file: SelectedFile)
}
