/** The HTTP layer's pure helpers: `parseJson`, `mapContainerState`, `mapAppRecord` (which
    attaches the orchestrator's open-app link) and `mapErrorToHttp`. */
module ServerUtils {
  import opened Wrappers
  import opened JsValues
  import opened Errors
  import opened Records
  import Telemetry

  // ---------------------------------------------------------------- parseJson

  /** `parseJson`: null and undefined give null, a non-string is returned as it is, and a
      string is parsed, with null for text that is not JSON. */
  function ParseJson(value: JsValue, parse: Telemetry.JsonParser): (r: JsValue)
    ensures IsNullish(value) ==> r == JsNull
    ensures !IsNullish(value) && !value.JsString? ==> r == value
    ensures value.JsString? ==> r == (if parse(value.s).Some? then parse(value.s).value else JsNull)
  {
    match value
    case JsUndefined => JsNull
    case JsNull => JsNull
    case JsString(s) => if parse(s).Some? then parse(s).value else JsNull
    case _ => value
  }

  /** Parsing what is already parsed changes nothing: a value that is not text is kept. */
  lemma ParseJsonKeepsParsedValues(value: JsValue, parse: Telemetry.JsonParser)
    requires !value.JsString? && !value.JsUndefined?
    ensures ParseJson(value, parse) == value
  {
  }

  // ---------------------------------------------------------------- mapping records

  /** `mapContainerState`: the record with its `metrics` and `state` passed through
      `parseJson`. Stored metrics are sanitized objects or null, never text, so they are kept. */
  function MapContainerState(state: Option<ContainerState>, parse: Telemetry.JsonParser): (r: Option<ContainerState>)
    ensures state.None? <==> r.None?
    ensures r.Some? ==> r.value.id == state.value.id && r.value.appId == state.value.appId
                        && r.value.createdAt == state.value.createdAt && r.value.updatedAt == state.value.updatedAt
    ensures r.Some? ==> r.value.snapshot == state.value.snapshot.(state := ParseJson(state.value.snapshot.state, parse))
  {
    if state.None? then None
    else
      var s := state.value;
      Some(s.(snapshot := s.snapshot.(state := ParseJson(Coalesce(s.snapshot.state, JsNull), parse))))
  }

  /** The API shape of an app: the loaded record and settings, its mapped container states, and
      the open-app link. */
  datatype MappedApp = MappedApp(record: AppRecord, settings: Included<Option<Settings>>,
                                 containerStates: seq<ContainerState>, openAppUrl: Option<string>)

  /** `mapAppRecord`: no app is null; container states that were not loaded as an array become
      `[]`; the link is the orchestrator's, or null without an orchestrator. */
  function MapAppRecord(app: Option<AppView>, hasOrchestrator: bool, parse: Telemetry.JsonParser): (r: Option<MappedApp>)
    ensures app.None? <==> r.None?
    ensures r.Some? ==> r.value.record == app.value.record && r.value.settings == app.value.settings
    ensures r.Some? && app.value.containerStates.NotIncluded? ==> r.value.containerStates == []
    ensures r.Some? && app.value.containerStates.Included? ==>
              |r.value.containerStates| == |app.value.containerStates.value|
              && forall i :: 0 <= i < |r.value.containerStates| ==>
                   Some(r.value.containerStates[i]) == MapContainerState(Some(app.value.containerStates.value[i]), parse)
    ensures r.Some? ==> r.value.openAppUrl == (if hasOrchestrator then Telemetry.BuildOpenAppUrl(app) else None)
  {
    if app.None? then None
    else
      var view := app.value;
      var states := if view.containerStates.Included? then MapStates(view.containerStates.value, parse) else [];
      Some(MappedApp(view.record, view.settings, states, if hasOrchestrator then Telemetry.BuildOpenAppUrl(app) else None))
  }

  /** `containerStates.map(mapContainerState)`. */
  function MapStates(states: seq<ContainerState>, parse: Telemetry.JsonParser): (r: seq<ContainerState>)
    ensures |r| == |states|
    ensures forall i :: 0 <= i < |r| ==> Some(r[i]) == MapContainerState(Some(states[i]), parse)
  {
    if states == [] then []
    else [MapContainerState(Some(states[0]), parse).value] + MapStates(states[1..], parse)
  }

  /** A mapped app keeps its link whichever container states it has. */
  lemma LinkIgnoresContainerStates(view: AppView, states: Included<seq<ContainerState>>, parse: Telemetry.JsonParser)
    ensures MapAppRecord(Some(view), true, parse).value.openAppUrl
            == MapAppRecord(Some(view.(containerStates := states)), true, parse).value.openAppUrl
  {
  }

  // ---------------------------------------------------------------- mapErrorToHttp

  /** The `details` of an error response. */
  datatype ErrorDetails = ValidationInfo(validation: ValidationDetails) | InstallationInfo(installation: InstallationDetails)

  /** `{ status, body: { error: { code, message, details } } }`; `None` details are null. */
  datatype HttpError = HttpError(status: int, code: string, message: string, details: Option<ErrorDetails>)

  const InternalErrorMessage := "Unexpected server error."

  /** `mapErrorToHttp`. */
  function MapErrorToHttp(error: AppError): (r: HttpError)
    ensures error.AppValidationError? ==>
              r.code == "validation_error" && r.message == error.message
              && (r.status == 404 <==> ErrorReason(error) == Some(NotFound))
              && (r.status != 404 ==> r.status == 400)
              && (r.details.Some? <==> error.validation.Some?)
              && (r.details.Some? ==> r.details.value == ValidationInfo(error.validation.value))
    ensures error.InstallationError? ==>
              r.status == 409 && r.code == "installation_error" && r.message == error.message
              && (r.details.Some? <==> error.installation.Some?)
              && (r.details.Some? ==> r.details.value == InstallationInfo(error.installation.value))
    ensures !error.AppValidationError? && !error.InstallationError? ==>
              r == HttpError(500, "internal_error", InternalErrorMessage, None)
  {
    match error
    case AppValidationError(message, validation) =>
      var status := if validation.Some? && validation.value.reason == NotFound then 404 else 400;
      HttpError(status, "validation_error", message, if validation.Some? then Some(ValidationInfo(validation.value)) else None)
    case InstallationError(message, installation) =>
      HttpError(409, "installation_error", message, if installation.Some? then Some(InstallationInfo(installation.value)) else None)
    case _ => HttpError(500, "internal_error", InternalErrorMessage, None)
  }

  /** Every response is a client error for the two domain error classes and 500 otherwise; only
      domain errors expose their message and details. */
  lemma StatusClasses(error: AppError)
    ensures MapErrorToHttp(error).status in {400, 404, 409, 500}
    ensures MapErrorToHttp(error).status == 500 <==> !error.AppValidationError? && !error.InstallationError?
    ensures MapErrorToHttp(error).status == 500 ==> MapErrorToHttp(error).details.None?
  {
  }

  /** An unknown application (the lifecycle manager's not-found error) is a 404. */
  lemma UnknownApplicationIs404(message: string)
    ensures MapErrorToHttp(Invalid(message, AppIdField, NotFound)) == HttpError(404, "validation_error", message,
              Some(ValidationInfo(ValidationDetails(AppIdField, NotFound, None))))
  {
  }

  /** A failing command or OS error surfaces as the generic 500, whatever it said. */
  lemma InternalErrorsAreOpaque(code: string, path: string, message: string)
    ensures MapErrorToHttp(SystemError(code, path)) == MapErrorToHttp(PlainError(message))
  {
  }
}
