# DockerControllCenter core, modelled in Dafny

DockerControllCenter manages GPU workloads as Docker Compose apps. The model covers:

- **Registration.** `registerApp` validates a registration payload. It derives a workspace slug from the app name, refuses a name or slug already taken, merges the defaults of a marketplace template, and creates the App record with status STOPPED.
- **Installation.** `installApp` marks the app INSTALLING. It syncs the app's Git repository into `<workspaceRoot>/<slug>`, writes a `docker-compose.yaml` for one GPU service named `dcc-<slug>`, and starts it with `docker compose up -d`. It then records RUNNING, or FAILED and rethrows a wrapped error.
- **Telemetry.** The Docker orchestrator's cycle lists containers with `docker ps` and `docker stats`. It inspects each app's container, upserts one container-state snapshot per app, and moves the app's status by a fixed table. It also keeps the polling switch, the open-app base URL and the open-app link.
- **The store.** The store is the in-memory stand-in for the Prisma client (`prismaDouble`) used in place of the database by the server code and its callers.
- **HTTP helpers.** The HTTP layer's helpers map records and errors to responses.
- **Server settings.** The server's database URL bootstrap and its configuration loader.

Modules follow the program:

- `Validation` models `validation.js`.
- `AppLifecycle` holds the pure side of `appLifecycleManager.js`: the Compose file, the template lookup and the registration plan.
- `LifecycleManager` holds the `AppLifecycleManager` class.
- `Telemetry` holds the pure side of `dockerOrchestrator.js`: parsing, status and health precedence, and the loop as a fold.
- `Orchestrator` holds the `DockerOrchestrator` class.
- `Persistence` holds the store double: a `PrismaDouble` class whose four collections are `seq` fields, specified by functions on the collections.
- `ServerUtils`, `Database` and `Config` model `utils.js`, `database.js` and `config.js`.
- The supporting modules are `JsText` (the JavaScript string primitives used), `JsValues` (JavaScript values, `??`, truthiness, `Number`), `Records`, `Errors`, `Effects` (the command runner and the file system) and `Wrappers`.

Interactions with the outside world are injected:

- The command runner is an object whose answer to each invocation is fixed by a function. It keeps the list of invocations made.
- The file system is an object with a set of directories, a map of files and a set of paths on which every operation is denied.
- `JSON.parse` is a function parameter that returns `None` for text that does not parse.
- Every `new Date()` is a `now` argument.

Each method is proved against functions that say what it does:

- `CollectTelemetry` ends the store and the runner log exactly as `Telemetry.TelemetryCycle` says.
- `InstallApp` ends as `InstallationRecorded` says.
- `RegisterApp` ends as `AppLifecycle.RegistrationPlan` says.
- The store methods end as the `...After...` functions say.
- Lemmas prove what those functions guarantee.

## Model

| member | source | states |
|---|---|---|
| `Validation.NormalizeName` | src/framework/validation.js:5-11 | a non-string gives `""`; a string gives its trimmed text, no longer than the input and with no whitespace at either end |
| `Validation.ReplaceNonAlnumRuns` | src/framework/validation.js:16 | the result uses only `[a-z0-9-]` and has no two hyphens in a row; it is empty exactly when the input is empty; a leading letter or digit stays in front |
| `Validation.ReplaceNonAlnumRunsKeepsAlnum` | src/framework/validation.js:16 | the replacement keeps a letter or digit exactly when the input has one |
| `Validation.TrimHyphens` | src/framework/validation.js:17 | no hyphen is left at either end; the slug alphabet and the no-double-hyphen property are kept; the result is empty exactly when there was no letter or digit |
| `Validation.CollapseHyphenRuns` | src/framework/validation.js:18 | text without a double hyphen is left unchanged |
| `Validation.DeriveWorkspaceSlug` | src/framework/validation.js:13-28 | every slug is non-empty `[a-z0-9-]` with no hyphen at either end and no double hyphen; it fails with `slug-empty` exactly when the lower-cased, trimmed name has no ASCII letter or digit |
| `Validation.ReplaceNonAlnumRunsOfSlugText` | src/framework/validation.js:16 | text already in the slug alphabet without double hyphens passes the first replacement unchanged |
| `Validation.SlugDerivesToItself` | src/framework/validation.js:13-28 | every slug derives to itself |
| `Validation.ReplacedSlugIsKept` | src/framework/validation.js:17-18 | when the first replacement already yields a slug, the other two keep it |
| `Validation.DeriveWorkspaceSlugIdempotent` | src/framework/validation.js:13-28 | deriving a slug from a derived slug gives the same slug |
| `Validation.HyphenJoinIsSlug` | src/framework/validation.js:13-28 | two non-empty words of lower-case letters and digits joined by one hyphen form a slug |
| `Validation.BlankAndHyphenCollide` | src/framework/validation.js:13-28 | two ASCII words joined by a blank or a hyphen, in any letter case, give the lower-cased words joined by one hyphen: `Foo Bar` and `foo-bar` share the slug `foo-bar` |
| `Validation.NoSlugWithoutWordChars` | src/framework/validation.js:20-25 | a name made only of characters that are not (and do not lower-case to) ASCII letters or digits has no slug |
| `Validation.ValidateRepositoryUrl` | src/framework/validation.js:30-56 | null or undefined gives null; a non-string gives `invalid-type`; blank gives null; a missing `http(s)`/`git`/`ssh` scheme (any case) gives `invalid-protocol`; otherwise the trimmed, non-blank URL |
| `Validation.ValidatePort` | src/framework/validation.js:58-73 | null or undefined gives null; otherwise it succeeds exactly when `Number(port)` is an integer in 1..65535, and returns that integer; any failure is `invalid-port` |
| `Validation.WrappedPortsAreAccepted` | src/framework/validation.js:63-73 | `Number` reads an array through its string form: `[8080]` and `[[8080]]` are port 8080, and `[8080, 8081]` is refused |
| `Validation.OptionalTrim` | src/framework/validation.js:75-89 | null or undefined gives null; a non-string gives `invalid-type` with the given field; a string gives its trimmed text, or null when blank |
| `Validation.ValidateRegistrationPayload` | src/framework/validation.js:91-115 | the first failing check, in the order name, repositoryUrl, port, startCommand, healthEndpoint, notes, is the error; otherwise the record of the six checked values |
| `Validation.AcceptedPayloadIsClean` | src/framework/validation.js:91-115 | every accepted payload has a trimmed non-blank name; its optional texts are trimmed and non-blank; its URL has an accepted scheme; its port is in 1..65535 |
| `Validation.BlankNameReportedFirst` | src/framework/validation.js:92-99 | a blank name is reported as `required` even when the port and other fields are invalid too |
| `Validation.MergeTemplateDefaults` | src/framework/validation.js:117-129 | no template gives the payload unchanged; each optional field keeps the payload's value, else takes the template's (`defaultPort`, `onboardingHints` for port and notes); name and health endpoint are kept |
| `Validation.TemplateDefaultsAreNotValidated` | src/framework/validation.js:117-129 | a template's out-of-range default port reaches the merged payload unchecked |
| `AppLifecycle.EnvOr` | src/framework/appLifecycleManager.js:11-12 | an unset or empty variable falls back to the default, otherwise its value |
| `AppLifecycle.EscapeForVolumeMount` | src/framework/appLifecycleManager.js:75-77 | the JSON string literal of `<path>:/app`, which never contains a line break |
| `AppLifecycle.PortsBlock` | src/framework/appLifecycleManager.js:81-83 | non-empty exactly for a truthy port; then `ports:` and the port published on the same host port |
| `AppLifecycle.CommandBlock` | src/framework/appLifecycleManager.js:84-86 | non-empty exactly for a truthy start command; then the one `command:` line running it through `bash -lc` |
| `AppLifecycle.GenerateComposeFile` | src/framework/appLifecycleManager.js:79-89 | fails exactly when the app has no stored slug and its name gives none (with the `slug-empty` error); otherwise the Compose lines, each ended by a line feed |
| `AppLifecycle.UnlinesConcat` | src/framework/appLifecycleManager.js:88 | the file text of two runs of lines is the concatenation of their texts |
| `AppLifecycle.SplitUnlines` | src/framework/appLifecycleManager.js:88 | text made of line-feed-ended lines without line breaks splits back into those lines and a final empty piece |
| `AppLifecycle.NoLineBreakInLines` | src/framework/appLifecycleManager.js:88 | with no line break in the slug or the base image, no generated line contains one |
| `AppLifecycle.ComposeFileSplitsIntoLines` | src/framework/appLifecycleManager.js:79-89 | the generated file splits on line feeds into exactly the Compose lines and a final empty piece |
| `AppLifecycle.OneVolumeEntry` | src/framework/appLifecycleManager.js:88 | the workspace is mounted at `/app` on exactly one line |
| `AppLifecycle.OneContainerName` | src/framework/appLifecycleManager.js:88 | the container is named `dcc-<slug>` on exactly one line |
| `AppLifecycle.PortsListedIffTruthy` | src/framework/appLifecycleManager.js:81-83 | the file has a `ports:` line exactly when the port is truthy |
| `AppLifecycle.CommandListedIffTruthy` | src/framework/appLifecycleManager.js:84-86 | the file has a `command:` line exactly when the start command is truthy, and then exactly one |
| `AppLifecycle.ResolveTemplate` | src/framework/appLifecycleManager.js:136-160 | a truthy `templateId` is looked up first, else a truthy `templateName`; a lookup that finds nothing is `not-found` on the field used; neither given means no template; a found template is a stored one |
| `AppLifecycle.FindByName` | src/framework/appLifecycleManager.js:117 | the lookup by name finds an app exactly when a stored app has that name |
| `AppLifecycle.FindBySlug` | src/framework/appLifecycleManager.js:118 | the lookup by slug finds an app exactly when a stored app has that slug |
| `AppLifecycle.ConflictCheck` | src/framework/appLifecycleManager.js:121-134 | a taken name is `duplicate`, reported before a taken slug, which is `workspace-conflict` naming the slug; no conflict exactly when neither is taken |
| `AppLifecycle.PlanValidated` | src/framework/appLifecycleManager.js:114-175 | after validation: a slug error, then a conflict, then a template error, in that order; otherwise the creation data with the derived slug, status STOPPED and the merged fields |
| `AppLifecycle.RegistrationPlan` | src/framework/appLifecycleManager.js:112-175 | a validation error comes first; otherwise the plan of the validated payload |
| `AppLifecycle.PlannedRecordFacts` | src/framework/appLifecycleManager.js:164-175 | the created record has status STOPPED, the validated name and a slug no stored app holds |
| `AppLifecycle.RegistrationKeepsNamesUnique` | src/framework/appLifecycleManager.js:116-134 | registering into a store with unique names and slugs keeps both unique |
| `AppLifecycle.RegisteringTwiceIsDuplicate` | src/framework/appLifecycleManager.js:121-126 | registering the same payload again is refused as a duplicate name |
| `AppLifecycle.SameSlugIsConflict` | src/framework/appLifecycleManager.js:128-134 | a new name whose slug another app holds is refused with the slug conflict naming that slug |
| `LifecycleManager.PathExists` | src/framework/appLifecycleManager.js:53-60 | true exactly when the path exists and access to it is not denied |
| `LifecycleManager.IsDirectoryEmpty` | src/framework/appLifecycleManager.js:62-73 | a missing directory is empty; an existing one is empty when it has no entries; `ENOTDIR` and `EACCES` are rethrown |
| `LifecycleManager.AppLifecycleManager.constructor` | src/framework/appLifecycleManager.js:92-110 | an absent workspace root or base image takes the default from the environment |
| `LifecycleManager.AppLifecycleManager.RegisterApp` | src/framework/appLifecycleManager.js:112-178 | an error from the plan is returned and nothing is written; otherwise exactly one record, the planned one, is appended and returned; the other collections are unchanged |
| `LifecycleManager.AppLifecycleManager.UpdateClone` | src/framework/appLifecycleManager.js:257-260 | `git fetch --all --prune`, then `git reset --hard origin/HEAD` only once the fetch succeeded; only Git calls; a failed command's error is the result |
| `LifecycleManager.AppLifecycleManager.CloneFresh` | src/framework/appLifecycleManager.js:271-276 | creates the parent directory, then clones into the workspace from the parent; a failure of either is returned: the clone's error when the clone failed, a file-system error otherwise; no file is touched |
| `LifecycleManager.AppLifecycleManager.SyncRepository` | src/framework/appLifecycleManager.js:253-277 | an existing `.git` means fetch and reset; a non-empty directory without one is refused with no command; otherwise a fresh clone; only Git calls; a failure is the error of the command that failed, or else a file-system error or the not-empty refusal |
| `LifecycleManager.AppLifecycleManager.SyncStep` | src/framework/appLifecycleManager.js:205 | the sync issues only Git calls and at least one when it succeeds; it fails as the sync does |
| `LifecycleManager.AppLifecycleManager.PrepareWorkspace` | src/framework/appLifecycleManager.js:204-208 | the repository is synced when cloning is not skipped and a URL is set; otherwise the workspace directory is created with no command; a failure is the failed command's error or a file-system error |
| `LifecycleManager.AppLifecycleManager.ComposeContentIsGenerated` | src/framework/appLifecycleManager.js:210-214 | the file written is what `generateComposeFile` produces for the app with its resolved slug |
| `LifecycleManager.AppLifecycleManager.ComposeAndStart` | src/framework/appLifecycleManager.js:210-224 | either it fails with no command, or it issues exactly one `docker compose -f <file> up -d` in the workspace with project name `dcc-<slug>`, whose answer is the result; a success leaves the generated file written; a failure with no command is the file write's file-system error |
| `LifecycleManager.AppLifecycleManager.Deploy` | src/framework/appLifecycleManager.js:203-224 | the earlier calls are kept; it succeeds exactly when the last call is a successful `compose up`, with the generated file written; a sync issues a Git call first; without a sync, a workspace that cannot be created fails with no command; a failure whose last command failed (a Git step or `compose up`) is that command's error, and any other failure is a file-system error or the not-empty refusal |
| `LifecycleManager.AppLifecycleManager.WriteStatus` | src/framework/appLifecycleManager.js:195-201 | one `app.update` of the record at the app's index, logged with the number of commands run before it |
| `LifecycleManager.AppLifecycleManager.DeployInWorkspace` | src/framework/appLifecycleManager.js:203-224 | a success leaves the generated Compose file in the slug's workspace and ends with its `compose up`; it fails as `Deploy` does |
| `LifecycleManager.AppLifecycleManager.RunInstallation` | src/framework/appLifecycleManager.js:195-250 | INSTALLING and the slug are written before any command; then RUNNING with `lastSeenAt` after a successful `compose up` on the written file, or FAILED with the deployment's error |
| `LifecycleManager.AppLifecycleManager.FindInstallTarget` | src/framework/appLifecycleManager.js:181-190 | an unknown id is `not-found` on `appId`; an app without a derivable slug gives the slug error; otherwise its index, record and slug |
| `LifecycleManager.AppLifecycleManager.InstallApp` | src/framework/appLifecycleManager.js:180-251 | not-found and slug errors change nothing; a workspace root that cannot be created is an unwrapped file-system error; otherwise the two status writes of `RunInstallation`; a success returns the workspace and Compose paths; a failure is `Failed to install application.` whose cause is the error the deployment threw: the failed command's error when its last command failed, otherwise a file-system error or the not-empty refusal |
| `LifecycleManager.CreateAppLifecycleManager` | src/framework/appLifecycleManager.js:100-102 | a missing store is refused with `Prisma client instance is required.`; otherwise a fresh manager over the given store, runner and file system |
| `Persistence.FirstIndex` | tests/helpers/prismaDouble.js:79 | `findIndex`: the first position satisfying the test, or none when no element does |
| `Persistence.Find` | tests/helpers/prismaDouble.js:41 | `find`: the first element satisfying the test, or none when no element does |
| `Persistence.StatesOf` | tests/helpers/prismaDouble.js:17-19 | exactly the container states of the app |
| `Persistence.StatesOfConcat` | tests/helpers/prismaDouble.js:17-19 | `filter` keeps store order: the states of a concatenation are those of each part in turn, and one state is kept exactly when it is the app's |
| `Persistence.Selected` | tests/helpers/prismaDouble.js:47-55 | exactly the enabled keys, each with the record's value |
| `Persistence.NewAppRecord` | tests/helpers/prismaDouble.js:64-73 | the supplied keys win; otherwise the id is `app_<count+1>`, both timestamps are `now`, the status is STOPPED, and `lastSeenAt` and `openAppBaseUrl` are null |
| `Persistence.ApplyAppChanges` | tests/helpers/prismaDouble.js:85-89 | the supplied keys replace the record's; all others are kept; `updatedAt` is the supplied one or `now` |
| `Persistence.AppsAfterUpdate` | tests/helpers/prismaDouble.js:78-92 | an unknown id throws `App with id <id> not found.` and changes nothing; otherwise only the first record with the id is replaced, and returned |
| `Persistence.NewSettings` | tests/helpers/prismaDouble.js:114-119 | id `settings_<count+1>` unless supplied, timestamps `now` unless supplied, the `create` keys |
| `Persistence.ApplySettingsChanges` | tests/helpers/prismaDouble.js:124-128 | the `update` keys replace; id, app and creation time are kept |
| `Persistence.SettingsAfterUpsert` | tests/helpers/prismaDouble.js:110-131 | no entry for the app appends the created one; otherwise the first entry for the app is updated in place |
| `Persistence.NewState` | tests/helpers/prismaDouble.js:139-144 | id `state_<count+1>` unless supplied, timestamps `now` unless supplied, the `create` keys |
| `Persistence.ApplyStateChanges` | tests/helpers/prismaDouble.js:149-153 | the `update` keys replace; id, app and creation time are kept |
| `Persistence.StatesAfterUpsert` | tests/helpers/prismaDouble.js:135-156 | no state for the app appends the created one; otherwise the first state for the app is updated in place |
| `Persistence.StatesAfterUpdate` | tests/helpers/prismaDouble.js:158-172 | no state for the app throws `Container state for app <id> not found.`; otherwise the first one is updated |
| `Persistence.StatesAfterDelete` | tests/helpers/prismaDouble.js:174-193 | no match throws `Container state not found.` and changes nothing; otherwise the first match is returned and the collection is the states before it followed by those after it |
| `Persistence.FindTemplate` | tests/helpers/prismaDouble.js:96-106 | by a non-empty id first, else by a non-empty name, else none; a result is a stored template |
| `Persistence.FindApp` | tests/helpers/prismaDouble.js:33-45 | an empty `where` finds nothing; otherwise the first app holding the value under the first key, or none when no app does |
| `Persistence.UpsertKeepsOneStatePerApp` | tests/helpers/prismaDouble.js:135-156 | an upsert whose `create.appId` matches keeps at most one state per app, grows the collection by at most one, and leaves a state for the app |
| `Persistence.UpsertKeepsOneSettingsPerApp` | tests/helpers/prismaDouble.js:110-131 | the same for settings |
| `Persistence.MismatchedUpsertDuplicates` | tests/helpers/prismaDouble.js:136-145 | a `create.appId` different from `where.appId` can put a second state for one app into the store |
| `Persistence.UpsertThenFind` | tests/helpers/prismaDouble.js:135-156 | after an upsert, the state found for the app is the one the upsert returned |
| `Persistence.CreateThenFindById` | tests/helpers/prismaDouble.js:64-76 | a created record with a new id is the one a lookup by that id finds |
| `Persistence.FirstIndexOfEquivalent` | tests/helpers/prismaDouble.js:79 | two tests that agree everywhere have the same first match |
| `Persistence.FindByIdIsAppIndex` | tests/helpers/prismaDouble.js:41 | the lookup by id finds exactly the record at the index `update` writes |
| `Persistence.AppIndexAfterUpdate` | tests/helpers/prismaDouble.js:78-92 | after an update, the id is still found at the same index |
| `Persistence.UpdateThenFind` | tests/helpers/prismaDouble.js:78-92 | reading an app back by id after an update gives the updated record |
| `Persistence.DefaultAppIdCanCollide` | tests/helpers/prismaDouble.js:66 | default ids count the collection, so a seeded `app_2` collides with the next default id |
| `Persistence.PrismaDouble.constructor` | tests/helpers/prismaDouble.js:1-7 | the four collections are the seeds |
| `Persistence.PrismaDouble.CloneApp` | tests/helpers/prismaDouble.js:9-30 | the record; its states only when included (`StatesOf` the app, so the app's own, in store order); its first settings record or null only when included |
| `Persistence.PrismaDouble.FindUniqueApp` | tests/helpers/prismaDouble.js:33-58 | the first app holding the value under the first key, cloned with the relations asked for; none when no app does |
| `Persistence.PrismaDouble.FindUniqueAppSelect` | tests/helpers/prismaDouble.js:47-55 | found exactly when `FindApp` finds; then exactly the selected keys |
| `Persistence.PrismaDouble.FindManyApps` | tests/helpers/prismaDouble.js:60-62 | one clone per stored app, in order |
| `Persistence.PrismaDouble.FindUniqueTemplate` | tests/helpers/prismaDouble.js:96-106 | the template lookup over the stored templates |
| `Persistence.PrismaDouble.CreateApp` | tests/helpers/prismaDouble.js:64-76 | appends exactly the new record and returns it; the other collections are unchanged |
| `Persistence.PrismaDouble.UpdateApp` | tests/helpers/prismaDouble.js:78-92 | the collection and result of `AppsAfterUpdate`; the other collections are unchanged |
| `Persistence.PrismaDouble.UpsertAppSettings` | tests/helpers/prismaDouble.js:110-131 | the collection and result of `SettingsAfterUpsert`; the other collections are unchanged |
| `Persistence.PrismaDouble.UpsertContainerState` | tests/helpers/prismaDouble.js:135-156 | the collection and result of `StatesAfterUpsert`; the other collections are unchanged |
| `Persistence.PrismaDouble.UpdateContainerState` | tests/helpers/prismaDouble.js:158-172 | the collection and result of `StatesAfterUpdate`; the other collections are unchanged |
| `Persistence.PrismaDouble.DeleteContainerState` | tests/helpers/prismaDouble.js:174-193 | the collection and result of `StatesAfterDelete`; the other collections are unchanged |
| `Telemetry.NonBlank` | src/framework/dockerOrchestrator.js:10-11 | at most as many lines as given, each non-empty with no whitespace at either end |
| `Telemetry.BlankLineSkipped` | src/framework/dockerOrchestrator.js:8-11 | a blank line contributes nothing to the parsed lines |
| `Telemetry.FirstLineKept` | src/framework/dockerOrchestrator.js:8-11 | a line with content contributes its trimmed text, in order |
| `Telemetry.WhitespaceOutputHasNoLines` | src/framework/dockerOrchestrator.js:7-22 | output of only whitespace and line breaks, the empty output included, has no lines |
| `Telemetry.ParseEach` | src/framework/dockerOrchestrator.js:12-21 | every line parses and the entries are the parsed values in order, or the error names a line that does not parse |
| `Telemetry.Prop` | src/framework/dockerOrchestrator.js:32 | reading a property throws exactly on null or undefined |
| `Telemetry.IndexInto` | src/framework/dockerOrchestrator.js:29-35 | setting each entry under its key fails exactly when some entry is null or undefined |
| `Telemetry.IndexKeys` | src/framework/dockerOrchestrator.js:29-35 | the keys are the earlier keys plus the key of every stored entry |
| `Telemetry.IndexLastWins` | src/framework/dockerOrchestrator.js:31-35 | a name points at the last stored entry carrying it |
| `Telemetry.IndexUntouched` | src/framework/dockerOrchestrator.js:31-35 | a key no stored entry carries keeps its value |
| `Telemetry.IndexKeyedByOwnValue` | src/framework/dockerOrchestrator.js:31-35 | every entry sits under the value of its own key |
| `Telemetry.ContainersCarryTheirNames` | src/framework/dockerOrchestrator.js:194 | the `docker ps` entry found under a name carries that name in `Names` |
| `Telemetry.BlankStatsOutputIsEmpty` | src/framework/dockerOrchestrator.js:24-38 | empty or whitespace-only stats output gives the empty map |
| `Telemetry.StatsKeysAreNames` | src/framework/dockerOrchestrator.js:31-35 | every key is the truthy `Name` of an entry; every entry with a truthy `Name` is keyed; entries without one are skipped |
| `Telemetry.CollectedStats` | src/framework/dockerOrchestrator.js:295-308 | a failed call, or output that does not parse, gives the empty map; otherwise the map of the output |
| `Telemetry.ToUpperSafe` | src/framework/dockerOrchestrator.js:40-42 | strings are upper-cased character by character, null or undefined becomes null, and anything else is kept |
| `Telemetry.ToUpperSafeIdempotent` | src/framework/dockerOrchestrator.js:40-42 | upper-casing twice is upper-casing once |
| `Telemetry.ContainerName` | src/framework/dockerOrchestrator.js:50-53 | `dcc-` followed by the stored slug, else the derived slug; a name without a slug throws the slug error |
| `Telemetry.FirstPresent` | src/framework/dockerOrchestrator.js:56-61 | when a candidate is present, the result is present |
| `Telemetry.FirstPresentIsEarliest` | src/framework/dockerOrchestrator.js:56-61 | the earliest present candidate is the one chosen |
| `Telemetry.ResolveStatus` | src/framework/dockerOrchestrator.js:55-63 | the upper-cased first present candidate, in the order inspect `State.Status`, inspect `State.State`, ps `State`, ps `Status`, `unknown`; never null |
| `Telemetry.CoalesceChainIsFirstPresent` | src/framework/dockerOrchestrator.js:56-61 | the five-way `??` chain is the first present candidate |
| `Telemetry.InspectStatusWins` | src/framework/dockerOrchestrator.js:55-63 | a present inspect `State.Status` decides the status whatever the summary says |
| `Telemetry.StatusUnknownWithoutData` | src/framework/dockerOrchestrator.js:55-63 | with no inspect data and no state or status in the summary, the status is `UNKNOWN` |
| `Telemetry.ResolveHealth` | src/framework/dockerOrchestrator.js:65-68 | a falsy raw health gives none; a truthy string is upper-cased; a truthy non-string throws |
| `Telemetry.HealthFallsBackToSummary` | src/framework/dockerOrchestrator.js:65-68 | the summary's `Health` counts only when the inspect data has no health status |
| `Telemetry.InspectData` | src/framework/dockerOrchestrator.js:44-48 | a failed call or unparsable output is null; a non-array is kept; an array gives its first element, or null when it is empty or that element is nullish |
| `Telemetry.StatusChanges` | src/framework/dockerOrchestrator.js:265-280 | RUNNING marks the app RUNNING with `lastSeenAt`; EXITED marks it STOPPED; MISSING marks it FAILED; any other status leaves it |
| `Telemetry.MetricsFor` | src/framework/dockerOrchestrator.js:70-83 | no metrics exactly when the stats entry is missing or falsy; a `TypeError` exactly when its `CPUPerc` or `MemPerc` is truthy but not a string; otherwise the metrics of that entry |
| `Telemetry.Observe` | src/framework/dockerOrchestrator.js:197-289 | the result is for the app and its container, with the snapshot's status and metrics; the app update follows the status table |
| `Telemetry.ObserveMissing` | src/framework/dockerOrchestrator.js:204-233 | an unlisted container issues no call and is recorded MISSING: the known container id or the name, null health, state and metrics; the app is marked FAILED |
| `Telemetry.ObserveListed` | src/framework/dockerOrchestrator.js:235-264 | a listed container is inspected once; the cycle throws exactly when its health does not resolve or its stats entry has a truthy non-string `CPUPerc` or `MemPerc`, and the health error comes first; otherwise the snapshot has the resolved status, the inspect `Id` else the ps `ID`, and the metrics of its stats entry |
| `Telemetry.ReconciledUnfold` | src/framework/dockerOrchestrator.js:197 | the loop takes the first app's step, then loops over the rest |
| `Telemetry.StepResult` | src/framework/dockerOrchestrator.js:282-289 | a step without failure appends exactly the observed result |
| `Telemetry.StepCalls` | src/framework/dockerOrchestrator.js:235-241 | a step after a failure does nothing; otherwise it appends exactly the inspect calls it observed |
| `Telemetry.FoldFailureSticks` | src/framework/dockerOrchestrator.js:197-290 | once an iteration has thrown, the rest of the iterations do nothing |
| `Telemetry.FoldOneResultPerApp` | src/framework/dockerOrchestrator.js:197-290 | iterations that append one result each give one result per app, in order |
| `Telemetry.FoldOnlyInspects` | src/framework/dockerOrchestrator.js:197-290 | iterations that only inspect extend the call log with inspect calls only |
| `Telemetry.FailureSticks` | src/framework/dockerOrchestrator.js:197-290 | once the loop has thrown, nothing further happens |
| `Telemetry.OneResultPerApp` | src/framework/dockerOrchestrator.js:197-290 | a completed loop yields one result per app, for that app, in app order |
| `Telemetry.LoopOnlyInspects` | src/framework/dockerOrchestrator.js:197-290 | the only calls the loop makes are `docker inspect` calls |
| `Telemetry.RunningAppIsMarkedRunning` | src/framework/dockerOrchestrator.js:265-272 | an app observed RUNNING is set RUNNING with `lastSeenAt` at the cycle's clock reading |
| `Telemetry.StatusTable` | src/framework/dockerOrchestrator.js:224-280 | after a step, EXITED makes the app STOPPED and MISSING makes it FAILED, both keeping `lastSeenAt`; any status other than RUNNING leaves the apps unchanged |
| `Telemetry.NoAppsNoCalls` | src/framework/dockerOrchestrator.js:174-176 | no apps: an empty result, no call and no write |
| `Telemetry.CycleResultsFollowApps` | src/framework/dockerOrchestrator.js:166-293 | a completed cycle calls `docker ps`, then `docker stats`, then inspects only, and resolves with one result per app in app order |
| `Telemetry.StatsFailureDegrades` | src/framework/dockerOrchestrator.js:295-308 | a failed `docker stats` gives the same cycle as `docker stats` answering with no output, so no app gets metrics |
| `Telemetry.ReconciledWithoutStats` | src/framework/dockerOrchestrator.js:197-290 | the loop does not depend on any runner answer other than `docker inspect` |
| `Telemetry.PsFailureWritesNothing` | src/framework/dockerOrchestrator.js:187-190 | a failed `docker ps` resolves with an empty result after that one call and writes nothing |
| `Telemetry.MalformedPsOutputWritesNothing` | src/framework/dockerOrchestrator.js:192-193 | `docker ps` output with a bad line throws after the two listing calls and before any write |
| `Telemetry.SanitizeBaseUrl` | src/framework/dockerOrchestrator.js:315 | null or undefined is none; a string is trimmed, and blank is none; anything else throws |
| `Telemetry.SanitizeBaseUrlIdempotent` | src/framework/dockerOrchestrator.js:315 | a sanitized URL is non-blank and sanitizes to itself |
| `Telemetry.BuildOpenAppUrl` | src/framework/dockerOrchestrator.js:339-352 | no app is no link; otherwise a link exists exactly when a base URL exists |
| `Telemetry.StripTrailingSlash` | src/framework/dockerOrchestrator.js:350 | one trailing `/` is dropped; otherwise the base is kept |
| `Telemetry.LinkCarriesPort` | src/framework/dockerOrchestrator.js:346-351 | with a base URL and a port, the link is exactly the base without one trailing `/`, then `:` and the decimal port, and the text after the `:` reads back as the port |
| `Telemetry.OwnBaseUrlWins` | src/framework/dockerOrchestrator.js:344 | the app's own base URL takes precedence over its settings' one |
| `Telemetry.NoPortGivesBase` | src/framework/dockerOrchestrator.js:346-348 | without a (truthy) port the link is the base URL unchanged |
| `Telemetry.EdgeGatewayLink` | src/framework/dockerOrchestrator.js:339-352 | settings base `http://edge-gateway/` with port 7000 give `http://edge-gateway:7000` |
| `Orchestrator.MapStatsByContainerName` | src/framework/dockerOrchestrator.js:24-38 | the loop yields the stats map specified by `StatsOf` (empty for empty output, keyed by truthy `Name`, last wins) |
| `Orchestrator.DockerOrchestrator.constructor` | src/framework/dockerOrchestrator.js:122-137 | the poll interval defaults to 5000 ms and the timer is not armed |
| `Orchestrator.DockerOrchestrator.CollectStats` | src/framework/dockerOrchestrator.js:295-308 | exactly one `docker stats` call; the map of `CollectedStats` |
| `Orchestrator.DockerOrchestrator.ReconcileApp` | src/framework/dockerOrchestrator.js:197-289 | one iteration: the runner calls, the container-state upsert, the app update and the result are those of `Step`; a health or metrics `TypeError` ends it after the inspect call and before any write |
| `Orchestrator.DockerOrchestrator.ReconcileNext` | src/framework/dockerOrchestrator.js:197-290 | the first iteration over the remaining apps, leaving the rest of the loop as `Reconciled` says, a health or metrics `TypeError` included |
| `Orchestrator.DockerOrchestrator.ReconcileAll` | src/framework/dockerOrchestrator.js:195-292 | the loop leaves the store, the call log and the result as `Reconciled` says; a health or metrics `TypeError` for one app rejects the loop with the writes of the apps before it |
| `Orchestrator.DockerOrchestrator.CollectTelemetry` | src/framework/dockerOrchestrator.js:166-293 | the store, the call log and the result are those of `TelemetryCycle` over the apps loaded with their states and settings, including the rejection on an unreadable health or CPU or memory percentage |
| `Orchestrator.DockerOrchestrator.Start` | src/framework/dockerOrchestrator.js:139-155 | an armed timer means nothing happens; otherwise one telemetry cycle, with its failure swallowed, then the timer is armed |
| `Orchestrator.DockerOrchestrator.Stop` | src/framework/dockerOrchestrator.js:157-164 | the timer is disarmed, also when it was not armed |
| `Orchestrator.DockerOrchestrator.UpdateOpenAppBaseUrl` | src/framework/dockerOrchestrator.js:310-337 | an empty id, a non-string value or an unknown app throw and write nothing; otherwise the sanitized URL goes to the app and is upserted into its settings, and the id, name, base URL and port of the updated record, as it now sits in the store, are returned |
| `Orchestrator.DockerOrchestrator.StoreBaseUrl` | src/framework/dockerOrchestrator.js:317-336 | the app update fails before the settings are touched; otherwise both writes, and the id, name, base URL and port of the updated record at its unchanged index |
| `Orchestrator.CreateDockerOrchestrator` | src/framework/dockerOrchestrator.js:355-357 | a missing store is refused; otherwise a fresh orchestrator with the timer not armed |
| `ServerUtils.ParseJson` | src/server/utils.js:9-23 | null or undefined gives null; a non-string is passed through; a string is its parse, or null when it does not parse |
| `ServerUtils.ParseJsonKeepsParsedValues` | src/server/utils.js:14-16 | parsing a value that is not text changes nothing |
| `ServerUtils.MapContainerState` | src/server/utils.js:25-35 | no state is null; otherwise the same record with its `state` passed through `parseJson` |
| `ServerUtils.MapStates` | src/server/utils.js:42-44 | one mapped state per state, in order |
| `ServerUtils.MapAppRecord` | src/server/utils.js:37-53 | no app is null; container states that are not an array become `[]`; `openAppUrl` is the orchestrator's link, or null without one |
| `ServerUtils.LinkIgnoresContainerStates` | src/server/utils.js:46 | the link does not depend on the container states |
| `ServerUtils.MapErrorToHttp` | src/server/utils.js:55-93 | a validation error is 404 for `not-found` and 400 otherwise (`validation_error`); an installation error is 409 (`installation_error`); their details are passed on, and only an explicit null stays null; anything else is 500 `internal_error` with `Unexpected server error.` and null details |
| `ServerUtils.StatusClasses` | src/server/utils.js:55-93 | the status is 400, 404, 409 or 500; it is 500 exactly for the other errors, and then there are no details |
| `ServerUtils.UnknownApplicationIs404` | src/server/utils.js:56-66 | the lifecycle manager's not-found error is a 404 with its message and details |
| `ServerUtils.InternalErrorsAreOpaque` | src/server/utils.js:83-92 | a system error and any plain error give the same response, whatever they said |
| `Database.IsEmpty` | src/server/database.js:5-7 | unset is empty; a value is empty when it trims to `""` |
| `Database.IsEmptyMeansBlank` | src/server/database.js:5-7 | a value is empty exactly when every character is whitespace |
| `Database.ResolveDatabaseUrl` | src/server/database.js:9-15 | the configured value unless it is empty, else the fallback |
| `Database.EnsureDatabaseUrl` | src/server/database.js:17-29 | returns the resolved URL; an empty one is replaced by the fallback in the environment with one warning when there is a logger; otherwise nothing changes |
| `Database.EnsuredUrlIsStable` | src/server/database.js:17-29 | after the fallback is written, a second call resolves to it and writes nothing |
| `Config.ConfiguredPort` | src/server/config.js:4-5 | unset gives 4000; a value with no leading integer gives 4000; otherwise its leading integer, read exactly, with no range check |
| `Config.ParseIntPrefixOfDefault` | src/server/config.js:4 | the default `'4000'` reads as 4000 |
| `Config.AutoStart` | src/server/config.js:9-11 | unset or empty is false; otherwise true unless it lower-cases to `false` |
| `Config.LoadConfig` | src/server/config.js:3-13 | the port, `corsOrigin` (default `*`), `logLevel` (default `info`) and the telemetry flag as above |
| `Config.DefaultsOfEmptyEnvironment` | src/server/config.js:3-13 | an empty environment gives port 4000, origin `*`, level `info` and no telemetry |
| `Config.PortIsReadBack` | src/server/config.js:4 | any integer written in decimal is the port, even outside the TCP range (the source agrees up to 2^53 in magnitude) |
| `Config.PortReadsNumericPrefix` | src/server/config.js:4 | the leading digits are the port and what follows them is ignored: `8080abc` is 8080 |
| `Config.NonNumericPortDefaults` | src/server/config.js:5 | a port with no leading integer falls back to 4000 |
| `Config.FalseInAnyCaseDisables` | src/server/config.js:9-11 | `FALSE`, `False` and `false` disable telemetry |
| `Config.OtherFlagsEnable` | src/server/config.js:9-11 | any other non-empty value, `0` included, enables it |
| `JsText.Trim` | src/framework/validation.js:10 | no whitespace is left at either end, and text without it at the ends is unchanged |
| `JsText.TrimIdempotent` | src/framework/validation.js:10 | trimming twice is trimming once |
| `JsText.LowerCaseConcat` | src/framework/validation.js:15 | lower-casing distributes over concatenation |
| `JsText.UpperCase` | src/framework/dockerOrchestrator.js:67 | each character is mapped to its upper case, and the length is kept |
| `JsText.ParseIntPrefix` | src/server/config.js:4 | a number exactly when leading digits follow the optional blanks and sign |
| `JsText.ParseIntOfIntToString` | src/server/config.js:4 | `parseInt` reads back every integer printed in decimal, read exactly (the source agrees up to 2^53 in magnitude) |
| `JsText.StringToNumberOfDigits` | src/framework/validation.js:63 | `Number` of a run of digits is the integer it spells |
| `JsText.SplitOn` | src/framework/dockerOrchestrator.js:9 | at least one piece, none containing the separator |
| `JsText.JoinSplit` | src/framework/dockerOrchestrator.js:9 | joining the pieces with the separator restores the text |
| `JsText.JsonEscapeHasNoNewline` | src/framework/appLifecycleManager.js:76 | a `JSON.stringify` string literal never contains a raw line break |
| `JsValues.Coalesce` | src/framework/validation.js:124 | `a ?? b` is `a` unless it is null or undefined |
| `JsValues.Get` | src/framework/dockerOrchestrator.js:57 | `v?.key` is the property of an object, else undefined |
| `Effects.Dirname` | src/framework/appLifecycleManager.js:271 | everything before the last `/`, or `/` or `.` when there is none before it |
| `Effects.DirnameOfJoin` | src/framework/appLifecycleManager.js:271 | the parent of `root/segment` is `root` |
| `Effects.CommandRunner.Run` | src/framework/appLifecycleManager.js:96 | the reply is the runner's answer, and the invocation is appended to the log |
| `Effects.FileSystem.Access` | src/framework/appLifecycleManager.js:55 | denied is `EACCES`; otherwise success exactly when the path exists, else `ENOENT` |
| `Effects.FileSystem.Readdir` | src/framework/appLifecycleManager.js:64 | `EACCES`, `ENOTDIR`, `ENOENT`, or the directory's entries |
| `Effects.FileSystem.Mkdir` | src/framework/appLifecycleManager.js:194 | succeeds exactly when neither the path nor an ancestor is a file and it is not denied; then the path and its ancestors are directories |
| `Effects.FileSystem.WriteFile` | src/framework/appLifecycleManager.js:216 | succeeds exactly when the path is not denied, not a directory, and its parent exists; a parent that is a file is `ENOTDIR`, a missing parent `ENOENT`; then the file holds the content |
| `Effects.FileSystem.CloneInto` | src/framework/appLifecycleManager.js:274 | a successful clone leaves the workspace directory |

## Left out

- Process spawning is not modelled. `createDefaultRunner` (appLifecycleManager.js and dockerOrchestrator.js) is a foreign call: the runner is injected as an object whose answers are a function of the invocation, and `stdout`/`stderr` streaming is not modelled.
- The work `git clone` does is not modelled. `Effects.FileSystem.CloneInto`: a successful clone only creates the workspace directory; the files of the repository are not modelled.
- Float parsing is not modelled. `sanitizeMetrics` (dockerOrchestrator.js:70-83) parses floats and integers out of `docker stats` text; a snapshot's metrics are only the stats entry they come from (`Records.Metrics`). The `TypeError` of a truthy non-string `CPUPerc` or `MemPerc` is modelled (`Telemetry.MetricsFor`).
- The timer is not modelled. `Orchestrator.DockerOrchestrator.Start`: the timer is a flag, and the polling repeats (each one a `CollectTelemetry`), the interval and the overlap of two cycles are not modelled.
- Logging is not modelled. The logger calls of `collectTelemetry`, `collectStats` and `start` are not modelled; `Database.EnsureDatabaseUrl` models the one warning it emits.
- Clock readings are arguments. `Orchestrator.DockerOrchestrator.CollectTelemetry`: every `new Date()` of one cycle is the same `now`; the source reads the clock for each write.
- `LifecycleManager.AppLifecycleManager.RegisterApp`: one `now` stands for the store double's `createdAt` and `updatedAt` defaults (prismaDouble.js:67-68), which the source reads from the clock separately.
- `LifecycleManager.AppLifecycleManager.WriteStatus`: one `now` stands for the store double's `updatedAt ?? new Date()` (prismaDouble.js:88) and, in the RUNNING write, for `lastSeenAt: new Date()` (appLifecycleManager.js:230) as well; the source reads the clock for each of them.
- `LifecycleManager.AppLifecycleManager.InstallApp`: one `now` stands for every clock reading of the installation, both status writes included; the source reads the clock at each write (appLifecycleManager.js:230, prismaDouble.js:88).
- `JSON.parse` is an injected function. Which texts are JSON is not modelled; the properties hold for every parser.
- `path.join` for a root and one segment is `root/segment`. Path normalisation (`..`, doubled or trailing `/`) is not modelled.
- `JsText.UpperCase`: only ASCII letters are upper-cased. `toUpperCase` maps more code points.
- `Telemetry.ToUpperSafe`: only ASCII letters are upper-cased, for the same reason.
- `JsText.LowerCase`: ASCII letters, U+0130 and U+212A are mapped exactly. Every other code point is kept as it is, although `toLowerCase` maps more of them. Slugs only keep `[a-z0-9]`, so only code points that lower-case to one of those matter.
- `Validation.ValidatePort`: `Number` of a string reads an optionally signed decimal with an optional fraction. Exponents, `0x`/`0o`/`0b` literals and `Infinity` read as not finite, so the model refuses a port written as `8e3` or `0x50`, which the source accepts.
- `Validation.ValidatePort`: `Number` of a decimal is read as the exact rational, not rounded to the nearest double, so `"8080.0000000000000001"`, which the source rounds to 8080 and accepts, is refused by the model.
- `Config.ConfiguredPort`: the leading integer is read exactly; `Number.parseInt` returns the nearest double, so beyond 2^53 in magnitude the source's port is rounded (`9007199254740993` reads as 9007199254740992), and Infinity for a literal too large for a double. The model does not carry floating point through the configuration.
- `Config.PortIsReadBack`: holds for the model's exact reading; for the source it holds only up to 2^53 in magnitude, for the reason on the line above.
- `JsText.ParseIntOfIntToString`: the same exact reading; the source's `parseInt` reads an integer back only up to 2^53 in magnitude.
- The `docker inspect` argument is only modelled for a string container `ID` (`Telemetry.InspectTarget`). Any other `ID` value is rendered as `""`.
- A `Map` of `docker ps` or `docker stats` entries compares keys structurally (`JsValue` equality), not by object identity. Entry names are strings, so the two agree.
- Environment values are strings. `process.env` cannot hold anything else.
- `FALLBACK_DATABASE_URL` (database.js:3) is resolved from the module's file URL. It is a parameter of `Database.ResolveDatabaseUrl` and `Database.EnsureDatabaseUrl`.
- `ServerUtils.MapContainerState`: a snapshot's metrics are never a string, so their pass through `parseJson` keeps them and is not written out.
- `ServerUtils.MapErrorToHttp`: details of `None` stand for an explicit `null` passed as `details`. An error built without details gets `{}` as its default (errors.js:2 and :10), and every error the core builds carries details, so `None` only arises from a caller outside the core.
- The routes are not modelled. They live in src/server/routes/apps.js. The start, stop, restart, reinstall and deinstall routes (lines 96-136) call `startApp`, `stopApp`, `restartApp`, `reinstallApp` and `deinstallApp`, which `AppLifecycleManager` does not define. Those operations do not exist in the core.
- `tests/api.test.js:155` expects `docker pull` of the base image as the first command of an installation, but `installApp` issues no such command. The model follows the code: the only Docker command of an installation is `docker compose up -d`.
- `asyncHandler` (utils.js:3-7) only forwards a rejection to Express, so it is not modelled.
