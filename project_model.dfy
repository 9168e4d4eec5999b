/** The Mongoose `Project` schema (backend/src/models/Project.js): field types, the
    three required fields, the status enumeration and its default. */
module ProjectModel {
  import opened Common

  /** A project document. `deadline` is an instant in milliseconds; an empty text
      stands for a missing reference. */
  datatype Project = Project(
    id: Id,
    name: string,
    description: string,
    managerId: Id,
    projectLeader: Id,
    deadline: Option<int>,
    tasks: seq<Id>,
    status: string,
    files: seq<string>)

  const Statuses: seq<string> := ["Not Started", "In Progress", "Completed"]
  const DefaultStatus: string := "Not Started"

  /** `new Project({...})`: the given fields, no tasks, and the default status. */
  function Create(id: Id, name: string, description: string, managerId: Id, projectLeader: Id,
                  deadline: Option<int>, files: seq<string>): (p: Project)
    ensures p.status == DefaultStatus && p.status in Statuses
    ensures p.tasks == []
    ensures p.id == id && p.managerId == managerId && p.projectLeader == projectLeader
    ensures p.name == name && p.description == description
    ensures p.deadline == deadline && p.files == files
  {
    Project(id, name, description, managerId, projectLeader, deadline, [], DefaultStatus, files)
  }

  /** The message of Mongoose's enum validator. */
  function EnumMessage(value: string): string {
    "`" + value + "` is not a valid enum value for path `status`."
  }

  /** The errors `validate()` collects. `name` is declared with the option
      `require`, which Mongoose does not know, so it is never checked. */
  function Validate(p: Project): (errs: set<FieldError>)
    ensures forall e :: e in errs ==> e.path != "name" && e.path != "description"
    ensures Required("managerId") in errs <==> p.managerId == ""
    ensures Required("projectLeader") in errs <==> p.projectLeader == ""
    ensures Required("deadline") in errs <==> p.deadline.None?
    ensures Invalid("status", EnumMessage(p.status)) in errs <==> p.status !in Statuses
  {
    (if p.managerId == "" then {Required("managerId")} else {})
    + (if p.projectLeader == "" then {Required("projectLeader")} else {})
    + (if p.deadline.None? then {Required("deadline")} else {})
    + (if p.status !in Statuses then {Invalid("status", EnumMessage(p.status))} else {})
  }

  predicate Valid(p: Project) {
    Validate(p) == {}
  }

  /** A project saves exactly when its manager, its leader and its deadline are
      present and its status is one of the three allowed values; the name,
      the description, the tasks and the files never stop it. */
  lemma ValidIff(p: Project)
    ensures Valid(p) <==>
      p.managerId != "" && p.projectLeader != "" && p.deadline.Some? && p.status in Statuses
  {
  }

  /** A freshly created project can fail validation only on its three required
      fields, never on its status. */
  lemma CreatedValidIff(id: Id, name: string, description: string, managerId: Id,
                        projectLeader: Id, deadline: Option<int>, files: seq<string>)
    ensures Valid(Create(id, name, description, managerId, projectLeader, deadline, files)) <==>
      managerId != "" && projectLeader != "" && deadline.Some?
  {
  }
}
