/** Shared vocabulary of the ManageMate back end and front end: optional values,
    record ids, the three role names and Mongoose validation errors. */
module Common {

  /** A value that may be missing (`undefined` or `null` in the JavaScript source). */
  datatype Option<+T> = None | Some(value: T) {
    /** `x || fallback` for an optional value. */
    function GetOr(fallback: T): T {
      match this
      case Some(v) => v
      case None => fallback
    }
  }

  /** A Mongo ObjectId or a client-side id, as text. The empty text stands for a
      missing or null id: Mongoose's `required` check rejects both alike. */
  type Id = string

  const Manager: string := "Manager"
  const ProjectLeader: string := "Project Leader"
  const TeamMember: string := "Team Member"

  /** A user account as the `User` model stores it (password and e-mail left out). */
  datatype Account = Account(id: Id, name: string, role: string)

  /** JavaScript truthiness of an optional string: missing and "" are falsy. */
  predicate Truthy(s: Option<string>) {
    s.Some? && s.value != ""
  }

  /** One entry of a Mongoose `ValidationError`, keyed by the schema path. */
  datatype FieldError =
    | Required(path: string)
    | Invalid(path: string, message: string)
}
