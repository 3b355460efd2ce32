/** The error kinds the core raises: `AppValidationError` and `InstallationError` with their
    `details` objects, plus the operating-system and plain `Error`s that pass through it. */
module Errors {
  import opened Wrappers

  /** The `field` of a validation error. */
  datatype Field =
    | NameField | RepositoryUrlField | PortField | StartCommandField | HealthEndpointField
    | NotesField | TemplateIdField | TemplateNameField | AppIdField

  /** The `reason` of a validation error. */
  datatype Reason =
    | Required | InvalidType | InvalidProtocol | InvalidPort | SlugEmpty
    | Duplicate | WorkspaceConflict | NotFound

  /** `{ field, reason }`, with `workspaceSlug` only on a slug conflict. */
  datatype ValidationDetails = ValidationDetails(field: Field, reason: Reason, workspaceSlug: Option<string>)

  /** The `details` an `InstallationError` carries. */
  datatype InstallationDetails =
    | CausedBy(cause: AppError)
    | WorkspaceNotEmpty(workspacePath: string)
    | CommandFailed(code: int, stderr: string)

  datatype AppError =
    | AppValidationError(message: string, validation: Option<ValidationDetails>)
    | InstallationError(message: string, installation: Option<InstallationDetails>)
      /** A Node.js system error such as ENOENT, with the path it concerns. */
    | SystemError(code: string, path: string)
      /** `failure.line` is the docker CLI output line that did not parse. */
    | JsonLineError(line: string)
      /** Any other `Error` (a TypeError, an error thrown by the store or an injected runner). */
    | PlainError(message: string)

  function Invalid(message: string, field: Field, reason: Reason): (e: AppError)
    ensures e.AppValidationError? && e.validation == Some(ValidationDetails(field, reason, None))
  {
    AppValidationError(message, Some(ValidationDetails(field, reason, None)))
  }

  /** The reason of a validation error, if it is one and carries details. */
  function ErrorReason(e: AppError): Option<Reason> {
    if e.AppValidationError? && e.validation.Some? then Some(e.validation.value.reason) else None
  }

  function ErrorField(e: AppError): Option<Field> {
    if e.AppValidationError? && e.validation.Some? then Some(e.validation.value.field) else None
  }
}
