/** The persisted entities: App, MarketplaceTemplate, DockerContainerState and AppSettings,
    with the field layout the lifecycle manager, the orchestrator and the store double use. */
module Records {
  import opened Wrappers
  import opened JsValues

  /** Wall-clock readings (`new Date()`) are supplied by the caller as plain numbers. */
  type Timestamp = nat

  datatype AppStatus = STOPPED | INSTALLING | RUNNING | FAILED

  datatype AppRecord = AppRecord(
    id: string,
    name: string,
    workspaceSlug: Option<string>,
    repositoryUrl: Option<string>,
    port: Option<int>,
    status: AppStatus,
    startCommand: Option<string>,
    healthEndpoint: Option<string>,
    notes: Option<string>,
    openAppBaseUrl: Option<string>,
    lastSeenAt: Option<Timestamp>,
    createdAt: Timestamp,
    updatedAt: Timestamp)

  datatype Template = Template(
    id: string,
    name: string,
    repositoryUrl: Option<string>,
    defaultPort: Option<int>,
    startCommand: Option<string>,
    onboardingHints: Option<string>)

  /** The sanitized metrics of one `docker stats` entry; the float parsing itself is not modelled,
      so the metrics are identified by the entry they come from. */
  datatype Metrics = SanitizedFrom(entry: JsValue)

  /** The fields the orchestrator writes into a container-state record on each observation. */
  datatype Snapshot = Snapshot(
    containerId: JsValue,
    containerName: string,
    status: JsValue,
    health: Option<string>,
    state: JsValue,
    metrics: Option<Metrics>,
    lastObservedAt: Timestamp)

  datatype ContainerState = ContainerState(
    id: string,
    appId: string,
    snapshot: Snapshot,
    createdAt: Timestamp,
    updatedAt: Timestamp)

  datatype Settings = Settings(
    id: string,
    appId: string,
    openAppBaseUrl: Option<string>,
    createdAt: Timestamp,
    updatedAt: Timestamp)

  /** A relation key on a returned record: absent unless the query asked to `include` it. */
  datatype Included<T> = NotIncluded | Included(value: T)

  /** An app as a query returns it, with the eager-loaded relations. */
  datatype AppView = AppView(
    record: AppRecord,
    containerStates: Included<seq<ContainerState>>,
    settings: Included<Option<Settings>>)

  /** The keys of an App record, for `where` and `select` objects. */
  datatype AppField =
    | Id | Name | WorkspaceSlug | RepositoryUrl | Port | Status | StartCommand
    | HealthEndpoint | Notes | OpenAppBaseUrl | LastSeenAt | CreatedAt | UpdatedAt

  /** The value stored under one key of an App record. */
  datatype FieldValue = FNull | FText(text: string) | FInt(number: int) | FStatus(status: AppStatus) | FTime(time: Timestamp)

  function TextOrNull(v: Option<string>): FieldValue {
    if v.Some? then FText(v.value) else FNull
  }

  function FieldOf(app: AppRecord, f: AppField): FieldValue {
    match f
    case Id => FText(app.id)
    case Name => FText(app.name)
    case WorkspaceSlug => TextOrNull(app.workspaceSlug)
    case RepositoryUrl => TextOrNull(app.repositoryUrl)
    case Port => if app.port.Some? then FInt(app.port.value) else FNull
    case Status => FStatus(app.status)
    case StartCommand => TextOrNull(app.startCommand)
    case HealthEndpoint => TextOrNull(app.healthEndpoint)
    case Notes => TextOrNull(app.notes)
    case OpenAppBaseUrl => TextOrNull(app.openAppBaseUrl)
    case LastSeenAt => if app.lastSeenAt.Some? then FTime(app.lastSeenAt.value) else FNull
    case CreatedAt => FTime(app.createdAt)
    case UpdatedAt => FTime(app.updatedAt)
  }

  /** One key of an update's `data` object: left out (`Keep`) or supplied (`Set`). */
  datatype Patch<T> = Keep | Set(value: T) {
    function Apply(current: T): T {
      if Set? then value else current
    }
  }

  /** The `data` of `app.update`: the keys the core writes. */
  datatype AppChanges = AppChanges(
    status: Patch<AppStatus>,
    workspaceSlug: Patch<Option<string>>,
    lastSeenAt: Patch<Option<Timestamp>>,
    openAppBaseUrl: Patch<Option<string>>,
    updatedAt: Option<Timestamp>)

  /** The `data` of `app.create`; `None` is a key left out. For the keys without a default it
      is also an explicit null, which the spread copies as is; an explicit null for a key with a
      non-null default (id, status, the timestamps) would override that default and is not
      modelled, since no caller in the core passes one. */
  datatype AppCreate = AppCreate(
    id: Option<string>,
    name: string,
    workspaceSlug: Option<string>,
    repositoryUrl: Option<string>,
    port: Option<int>,
    status: Option<AppStatus>,
    startCommand: Option<string>,
    healthEndpoint: Option<string>,
    notes: Option<string>,
    openAppBaseUrl: Option<string>,
    lastSeenAt: Option<Timestamp>,
    createdAt: Option<Timestamp>,
    updatedAt: Option<Timestamp>)
}
