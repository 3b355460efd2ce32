/** The app lifecycle manager: registration of a new app, installation into its workspace
    (repository sync, Compose file generation, `docker compose up`), and the Compose file
    format itself. The store, the command runner and the file system are injected. */
module AppLifecycle {
  import opened Wrappers
  import opened JsText
  import opened JsValues
  import opened Errors
  import opened Records
  import opened Validation
  import opened Persistence
  import opened Effects

  // ---------------------------------------------------------------- configured defaults

  const FallbackWorkspaceRoot := "/opt/dockerstore"
  const FallbackBaseImage := "nvcr.io/nvidia/pytorch:latest"

  /** `process.env[key] || fallback`: an unset or empty variable falls back. */
  function EnvOr(env: map<string, string>, key: string, fallback: string): (r: string)
    ensures key in env && env[key] != "" ==> r == env[key]
    ensures !(key in env && env[key] != "") ==> r == fallback
    ensures fallback != "" ==> r != ""
  {
    if key in env && env[key] != "" then env[key] else fallback
  }

  function DefaultWorkspaceRoot(env: map<string, string>): string {
    EnvOr(env, "DCC_STORAGE_ROOT", FallbackWorkspaceRoot)
  }

  function DefaultBaseImage(env: map<string, string>): string {
    EnvOr(env, "DCC_BASE_IMAGE", FallbackBaseImage)
  }

  // ---------------------------------------------------------------- the Compose file

  /** A JavaScript truthiness test on the optional port and on optional text. */
  predicate IsTruthyPort(port: Option<int>) { port.Some? && port.value != 0 }

  predicate IsTruthyText(t: Option<string>) { t.Some? && t.value != "" }

  /** The name Compose gives the container, and the Compose project name, of a workspace slug. */
  function ContainerNameFor(slug: string): string {
    "dcc-" + slug
  }

  /** `escapeForVolumeMount`: the JSON string literal of `<path>:/app`. */
  function EscapeForVolumeMount(workspacePath: string): (r: string)
    ensures r == "\"" + JsonEscape(workspacePath) + ":/app\""
    ensures '\n' !in r
  {
    var escaped := JsonEscape(workspacePath);
    JsonEscapeConcat(workspacePath, ":/app");
    JsonEscapePlain(":/app");
    assert JsonEscape(workspacePath + ":/app") == escaped + ":/app";
    JsonEscapeHasNoNewline(workspacePath);
    assert '\n' !in escaped;
    assert "\"" + (escaped + ":/app") + "\"" == "\"" + escaped + ":/app\"";
    JsonQuote(workspacePath + ":/app")
  }

  /** The one entry of the `volumes:` list: the workspace mounted at `/app`. */
  function VolumeLine(workspacePath: string): (r: string)
    ensures |r| >= 15 && r[0] == ' ' && r[4] == ' ' && r[6] == '-' && r[|r| - 2] == 'p'
    ensures '\n' !in r
  {
    "      - " + EscapeForVolumeMount(workspacePath)
  }

  function ContainerNameLine(slug: string): (r: string)
    ensures |r| >= 7 && r[4] == 'c' && r[6] == 'n'
  {
    "    container_name: " + ContainerNameFor(slug)
  }

  function PortLine(port: int): (r: string)
    ensures |r| >= 12 && r[4] == ' ' && r[6] == '-' && IsDigit(r[|r| - 2]) && '\n' !in r
  {
    var p := IntToString(port);
    "      - \"" + p + ":" + p + "\""
  }

  function CommandLine(startCommand: string): (r: string)
    ensures StartsWith(r, "    command:") && '\n' !in r
  {
    var head := "    command: [\"bash\", \"-lc\", ";
    assert head[..12] == "    command:" && '\n' !in head;
    JsonEscapeHasNoNewline(startCommand);
    var quoted := JsonQuote(startCommand);
    assert '\n' !in quoted;
    var line := head + quoted + "]";
    assert line[..12] == head[..12];
    line
  }

  /** The `ports:` block, only for a truthy port, publishing the port on the same host port. */
  function PortsBlock(port: Option<int>): (r: seq<string>)
    ensures r != [] <==> IsTruthyPort(port)
    ensures IsTruthyPort(port) ==> r == ["    ports:", PortLine(port.value)]
  {
    if IsTruthyPort(port) then ["    ports:", PortLine(port.value)] else []
  }

  /** The `command:` entry, only for a truthy start command, run through `bash -lc`. */
  function CommandBlock(startCommand: Option<string>): (r: seq<string>)
    ensures r != [] <==> IsTruthyText(startCommand)
    ensures IsTruthyText(startCommand) ==> r == [CommandLine(startCommand.value)]
  {
    if IsTruthyText(startCommand) then [CommandLine(startCommand.value)] else []
  }

  /** The lines that do not depend on the app, in three runs. */
  function PreambleLines(): seq<string> {
    ["version: '3.9'", "services:", "  app:"]
  }

  function ServiceLines(): seq<string> {
    ["    restart: unless-stopped", "    working_dir: /app", "    volumes:"]
  }

  function DeployLines(): seq<string> {
    ["    deploy:", "      resources:", "        reservations:", "          devices:",
     "            - driver: nvidia", "              capabilities: [gpu]"]
  }

  function ImageLine(baseImage: string): (r: string)
    ensures |r| > 6 && r[4] == 'i' && r[6] == 'a'
  {
    "    image: " + baseImage
  }

  /** The order of the lines of the Compose file. */
  function Layout(preamble: seq<string>, image: string, container: string, service: seq<string>,
                  volume: string, ports: seq<string>, command: seq<string>, deploy: seq<string>): seq<string> {
    preamble + [image, container] + service + [volume] + ports + command + deploy
  }

  /** The Compose file line by line: one service `app` with the base image, the container
      name, the workspace volume, the optional ports and command, and a GPU reservation. */
  function ComposeLines(slug: string, workspacePath: string, baseImage: string,
                        port: Option<int>, startCommand: Option<string>): seq<string> {
    Layout(PreambleLines(), ImageLine(baseImage), ContainerNameLine(slug), ServiceLines(),
           VolumeLine(workspacePath), PortsBlock(port), CommandBlock(startCommand), DeployLines())
  }

  /** Lines each terminated by a line feed. */
  function Unlines(lines: seq<string>): string {
    if lines == [] then "" else lines[0] + "\n" + Unlines(lines[1..])
  }

  /** The slug the Compose file uses: the stored one, or one derived from the name. */
  function ComposeSlug(app: AppRecord): Result<string, AppError> {
    if app.workspaceSlug.Some? then Ok(app.workspaceSlug.value) else DeriveWorkspaceSlug(JsString(app.name))
  }

  /** `generateComposeFile`: fails only when the app has no slug and none can be derived. */
  function GenerateComposeFile(app: AppRecord, workspacePath: string, baseImage: string): (r: Result<string, AppError>)
    ensures r.Err? <==> app.workspaceSlug.None? && !HasAlnum(LowerCase(NormalizeName(JsString(app.name))))
    ensures r.Err? ==> r.error == Invalid(SlugEmptyMessage, NameField, SlugEmpty)
    ensures r.Ok? ==> r.value == Unlines(ComposeLines(ComposeSlug(app).value, workspacePath, baseImage, app.port, app.startCommand))
  {
    var slug :- ComposeSlug(app);
    Ok(Unlines(ComposeLines(slug, workspacePath, baseImage, app.port, app.startCommand)))
  }

  lemma {:induction false} UnlinesConcat(a: seq<string>, b: seq<string>)
    ensures Unlines(a + b) == Unlines(a) + Unlines(b)
  {
    if a == [] {
      assert a + b == b;
    } else {
      assert (a + b)[0] == a[0];
      assert (a + b)[1..] == a[1..] + b;
      UnlinesConcat(a[1..], b);
    }
  }

  /** Text made of line-feed-terminated lines splits back into those lines and a final "". */
  lemma {:induction false} SplitUnlines(lines: seq<string>)
    requires forall i :: 0 <= i < |lines| ==> '\n' !in lines[i]
    ensures SplitOn(Unlines(lines), '\n') == lines + [""]
  {
    if lines != [] {
      SplitUnlines(lines[1..]);
      SplitOnPiece(lines[0], '\n', Unlines(lines[1..]));
      assert [lines[0]] + lines[1..] == lines;
    }
  }

  /** The fourth and sixth characters of a line, which tell the lines of the file apart. */
  predicate Marked(line: string, c4: char, c6: char) {
    |line| > 6 && line[4] == c4 && line[6] == c6
  }

  /** No fixed line has a line break or the marks of the app-dependent lines. */
  predicate PlainFixedLine(line: string) {
    && '\n' !in line
    && !Marked(line, ' ', '-') && !Marked(line, 'c', 'n') && !Marked(line, 'c', 'm')
    && !Marked(line, 'i', 'a') && line != "    ports:"
  }

  lemma PreambleLinesArePlain()
    ensures forall l :: l in PreambleLines() ==> PlainFixedLine(l)
  {
  }

  lemma ServiceLinesArePlain()
    ensures forall l :: l in ServiceLines() ==> PlainFixedLine(l)
  {
  }

  lemma DeployLinesArePlain()
    ensures forall l :: l in DeployLines() ==> PlainFixedLine(l)
  {
    forall l | l in DeployLines()[..3] ensures PlainFixedLine(l) { }
    forall l | l in DeployLines()[3..] ensures PlainFixedLine(l) { }
    assert DeployLines() == DeployLines()[..3] + DeployLines()[3..];
  }

  lemma FixedLinesArePlain()
    ensures forall l :: l in PreambleLines() ==> PlainFixedLine(l)
    ensures forall l :: l in ServiceLines() ==> PlainFixedLine(l)
    ensures forall l :: l in DeployLines() ==> PlainFixedLine(l)
  {
    PreambleLinesArePlain();
    ServiceLinesArePlain();
    DeployLinesArePlain();
  }

  lemma NoLineBreakInLines(slug: string, workspacePath: string, baseImage: string,
                           port: Option<int>, startCommand: Option<string>)
    requires '\n' !in slug && '\n' !in baseImage
    ensures var lines := ComposeLines(slug, workspacePath, baseImage, port, startCommand);
            forall i :: 0 <= i < |lines| ==> '\n' !in lines[i]
  {
    var lines := ComposeLines(slug, workspacePath, baseImage, port, startCommand);
    var image := ImageLine(baseImage);
    var container := ContainerNameLine(slug);
    forall i | 0 <= i < |image| ensures image[i] != '\n' {
      if i >= 11 { assert image[i] == baseImage[i - 11]; }
    }
    forall i | 0 <= i < |container| ensures container[i] != '\n' {
      if i >= 24 { assert container[i] == slug[i - 24]; }
    }
    FixedLinesArePlain();
    forall i | 0 <= i < |lines| ensures '\n' !in lines[i] {
      assert lines[i] in lines;
    }
  }

  /** With no line break in the slug or the base image, the generated file is exactly the
      Compose lines, each ending in a line feed. */
  lemma ComposeFileSplitsIntoLines(app: AppRecord, workspacePath: string, baseImage: string)
    requires '\n' !in baseImage
    requires app.workspaceSlug.Some? ==> '\n' !in app.workspaceSlug.value
    requires GenerateComposeFile(app, workspacePath, baseImage).Ok?
    ensures SplitOn(GenerateComposeFile(app, workspacePath, baseImage).value, '\n')
            == ComposeLines(ComposeSlug(app).value, workspacePath, baseImage, app.port, app.startCommand) + [""]
  {
    var slug := ComposeSlug(app).value;
    if app.workspaceSlug.None? {
      assert IsSlug(slug);
      forall i | 0 <= i < |slug| ensures slug[i] != '\n' {
        assert IsSlugChar(slug[i]);
      }
    }
    NoLineBreakInLines(slug, workspacePath, baseImage, app.port, app.startCommand);
    SplitUnlines(ComposeLines(slug, workspacePath, baseImage, app.port, app.startCommand));
  }

  /** A line is not a prefix match when it differs from the prefix at one position. */
  lemma NotPrefixAt(line: string, prefix: string, k: nat)
    requires k < |prefix| && k < |line| && line[k] != prefix[k]
    ensures !StartsWith(line, prefix)
  {
  }

  /** Every `command:` line carries the command marks. */
  lemma CommandPrefixMarks(line: string)
    ensures StartsWith(line, "    command:") ==> Marked(line, 'c', 'm')
  {
    if StartsWith(line, "    command:") {
      assert line[4] == line[..12][4] && line[6] == line[..12][6];
    }
  }

  lemma CommandLineMarked(startCommand: string)
    ensures Marked(CommandLine(startCommand), 'c', 'm')
  {
    CommandPrefixMarks(CommandLine(startCommand));
  }

  /** A line with the given marks is none of the fixed lines. */
  lemma NotAFixedLine(line: string)
    requires Marked(line, ' ', '-') || Marked(line, 'c', 'n') || Marked(line, 'c', 'm') || Marked(line, 'i', 'a')
    ensures line !in PreambleLines() && line !in ServiceLines() && line !in DeployLines()
  {
    FixedLinesArePlain();
  }

  lemma VolumeOnceInLayout(preamble: seq<string>, image: string, container: string, service: seq<string>,
                            volume: string, ports: seq<string>, command: seq<string>, deploy: seq<string>)
    requires volume !in preamble && volume !in service && volume !in deploy && volume !in ports && volume !in command
    requires volume != image && volume != container
    ensures multiset(Layout(preamble, image, container, service, volume, ports, command, deploy))[volume] == 1
  {
  }

  lemma ContainerOnceInLayout(preamble: seq<string>, image: string, container: string, service: seq<string>,
                               volume: string, ports: seq<string>, command: seq<string>, deploy: seq<string>)
    requires container !in preamble && container !in service && container !in deploy
    requires container !in ports && container !in command
    requires container != image && container != volume
    ensures multiset(Layout(preamble, image, container, service, volume, ports, command, deploy))[container] == 1
  {
  }

  /** The workspace is mounted exactly once. */
  lemma OneVolumeEntry(slug: string, workspacePath: string, baseImage: string,
                       port: Option<int>, startCommand: Option<string>)
    ensures multiset(ComposeLines(slug, workspacePath, baseImage, port, startCommand))[VolumeLine(workspacePath)] == 1
  {
    var v := VolumeLine(workspacePath);
    NotAFixedLine(v);
    if IsTruthyText(startCommand) {
      CommandLineMarked(startCommand.value);
    }
    VolumeOnceInLayout(PreambleLines(), ImageLine(baseImage), ContainerNameLine(slug), ServiceLines(),
                       v, PortsBlock(port), CommandBlock(startCommand), DeployLines());
  }

  /** The container is named `dcc-<slug>`, on exactly one line. */
  lemma OneContainerName(slug: string, workspacePath: string, baseImage: string,
                         port: Option<int>, startCommand: Option<string>)
    ensures multiset(ComposeLines(slug, workspacePath, baseImage, port, startCommand))[ContainerNameLine(slug)] == 1
  {
    var n := ContainerNameLine(slug);
    NotAFixedLine(n);
    if IsTruthyText(startCommand) {
      CommandLineMarked(startCommand.value);
    }
    ContainerOnceInLayout(PreambleLines(), ImageLine(baseImage), n, ServiceLines(),
                          VolumeLine(workspacePath), PortsBlock(port), CommandBlock(startCommand), DeployLines());
  }

  /** A `ports:` block appears exactly when the port is truthy. */
  lemma PortsListedIffTruthy(slug: string, workspacePath: string, baseImage: string,
                             port: Option<int>, startCommand: Option<string>)
    ensures "    ports:" in ComposeLines(slug, workspacePath, baseImage, port, startCommand) <==> IsTruthyPort(port)
  {
    var lines := ComposeLines(slug, workspacePath, baseImage, port, startCommand);
    FixedLinesArePlain();
    if IsTruthyText(startCommand) {
      CommandLineMarked(startCommand.value);
    }
    assert "    ports:" !in CommandBlock(startCommand);
    if IsTruthyPort(port) {
      assert "    ports:" in PortsBlock(port);
    }
  }

  /** Outside the command block no line of the layout starts like a `command:` line. */
  lemma CommandsInLayout(preamble: seq<string>, image: string, container: string, service: seq<string>,
                         volume: string, ports: seq<string>, command: seq<string>, deploy: seq<string>)
    requires forall l :: l in preamble ==> !Marked(l, 'c', 'm')
    requires forall l :: l in service ==> !Marked(l, 'c', 'm')
    requires forall l :: l in ports ==> !Marked(l, 'c', 'm')
    requires forall l :: l in deploy ==> !Marked(l, 'c', 'm')
    requires !Marked(image, 'c', 'm') && !Marked(container, 'c', 'm') && !Marked(volume, 'c', 'm')
    requires forall l :: l in command ==> StartsWith(l, "    command:")
    ensures var lines := Layout(preamble, image, container, service, volume, ports, command, deploy);
            (exists i :: 0 <= i < |lines| && StartsWith(lines[i], "    command:")) <==> command != []
    ensures forall x :: x in command ==>
              multiset(Layout(preamble, image, container, service, volume, ports, command, deploy))[x] == multiset(command)[x]
  {
    var lines := Layout(preamble, image, container, service, volume, ports, command, deploy);
    var others := preamble + [image, container] + service + [volume] + ports;
    assert lines == others + command + deploy;
    forall x | x in command ensures x !in others && x !in deploy {
      CommandPrefixMarks(x);
    }
    if command != [] {
      assert lines[|others|] == command[0];
    } else {
      forall i | 0 <= i < |lines| ensures !StartsWith(lines[i], "    command:") {
        CommandPrefixMarks(lines[i]);
        assert lines[i] in others || lines[i] in deploy;
      }
    }
  }

  lemma FixedLinesUnmarked()
    ensures forall l :: l in PreambleLines() ==> !Marked(l, 'c', 'm')
    ensures forall l :: l in ServiceLines() ==> !Marked(l, 'c', 'm')
    ensures forall l :: l in DeployLines() ==> !Marked(l, 'c', 'm')
  {
    FixedLinesArePlain();
  }

  /** A `command:` line appears exactly when the start command is truthy, and then only once. */
  lemma CommandListedIffTruthy(slug: string, workspacePath: string, baseImage: string,
                               port: Option<int>, startCommand: Option<string>)
    ensures var lines := ComposeLines(slug, workspacePath, baseImage, port, startCommand);
            (exists i :: 0 <= i < |lines| && StartsWith(lines[i], "    command:")) <==> IsTruthyText(startCommand)
    ensures IsTruthyText(startCommand) ==>
              multiset(ComposeLines(slug, workspacePath, baseImage, port, startCommand))[CommandLine(startCommand.value)] == 1
  {
    FixedLinesUnmarked();
    CommandsInLayout(PreambleLines(), ImageLine(baseImage), ContainerNameLine(slug), ServiceLines(),
                     VolumeLine(workspacePath), PortsBlock(port), CommandBlock(startCommand), DeployLines());
  }

  // ---------------------------------------------------------------- registration

  const ApplicationNotFoundMessage := "Application not found."
  const DuplicateNameMessage := "Application name already exists."
  const SlugConflictMessage := "Derived workspace slug already exists. Choose a different name."
  const TemplateNotFoundMessage := "Marketplace template not found."
  const InstallFailedMessage := "Failed to install application."
  const WorkspaceNotEmptyMessage := "Workspace directory is not empty and is not a Git repository."
  const ComposeFileName := "docker-compose.yaml"

  const NoRelations := Include(false, false)

  /** The error of a slug that another app already uses; it names the slug. */
  function SlugConflict(slug: string): AppError {
    AppValidationError(SlugConflictMessage, Some(ValidationDetails(NameField, WorkspaceConflict, Some(slug))))
  }

  /** A lookup key as the store compares it (`===`): only a string can equal a stored id or name. */
  function AsText(v: JsValue): Option<string> {
    if v.JsString? then Some(v.s) else None
  }

  /** The template lookup of `registerApp`: by a truthy `templateId`, else by a truthy
      `templateName`, else none; a lookup that finds nothing is an error naming the field used. */
  function ResolveTemplate(templates: seq<Template>, input: RegistrationInput): (r: Result<Option<Template>, AppError>)
    ensures r.Ok? && r.value.Some? ==> r.value.value in templates
    ensures Truthy(input.templateId) ==>
              (r.Ok? <==> exists t :: t in templates && JsString(t.id) == input.templateId)
              && (r.Ok? ==> r.value.Some? && JsString(r.value.value.id) == input.templateId)
              && (r.Err? ==> r.error == Invalid(TemplateNotFoundMessage, TemplateIdField, NotFound))
    ensures !Truthy(input.templateId) && Truthy(input.templateName) ==>
              (r.Ok? <==> exists t :: t in templates && JsString(t.name) == input.templateName)
              && (r.Ok? ==> r.value.Some? && JsString(r.value.value.name) == input.templateName)
              && (r.Err? ==> r.error == Invalid(TemplateNotFoundMessage, TemplateNameField, NotFound))
    ensures !Truthy(input.templateId) && !Truthy(input.templateName) ==> r == Ok(None)
  {
    if Truthy(input.templateId) then
      var found := FindTemplate(templates, TemplateWhere(AsText(input.templateId), None));
      if found.None? then Err(Invalid(TemplateNotFoundMessage, TemplateIdField, NotFound)) else Ok(found)
    else if Truthy(input.templateName) then
      var found := FindTemplate(templates, TemplateWhere(None, AsText(input.templateName)));
      if found.None? then Err(Invalid(TemplateNotFoundMessage, TemplateNameField, NotFound)) else Ok(found)
    else Ok(None)
  }

  /** The `data` `registerApp` creates from a validated and merged payload. */
  function CreationData(merged: Registration, slug: string): AppCreate {
    AppCreate(None, merged.name, Some(slug), merged.repositoryUrl, merged.port, Some(STOPPED),
              merged.startCommand, merged.healthEndpoint, merged.notes, None, None, None, None)
  }

  /** The store finds an app by name exactly when one has that name. */
  lemma FindByName(apps: seq<AppRecord>, name: string)
    ensures FindApp(apps, [(Name, FText(name))]).Some? <==> exists a :: a in apps && a.name == name
  {
    if a :| a in apps && a.name == name {
      assert FieldOf(a, Name) == FText(name);
    }
  }

  /** The store finds an app by slug exactly when one has that slug. */
  lemma FindBySlug(apps: seq<AppRecord>, slug: string)
    ensures FindApp(apps, [(WorkspaceSlug, FText(slug))]).Some? <==> exists a :: a in apps && a.workspaceSlug == Some(slug)
  {
    if a :| a in apps && a.workspaceSlug == Some(slug) {
      assert FieldOf(a, WorkspaceSlug) == FText(slug);
    }
  }

  /** The uniqueness checks of `registerApp`: a name conflict is reported before a slug conflict. */
  function ConflictCheck(apps: seq<AppRecord>, name: string, slug: string): (r: Option<AppError>)
    ensures (exists a :: a in apps && a.name == name) ==> r == Some(Invalid(DuplicateNameMessage, NameField, Duplicate))
    ensures ((forall a :: a in apps ==> a.name != name) && (exists a :: a in apps && a.workspaceSlug == Some(slug)))
              ==> r == Some(SlugConflict(slug))
    ensures r.None? <==> forall a :: a in apps ==> a.name != name && a.workspaceSlug != Some(slug)
  {
    FindByName(apps, name);
    FindBySlug(apps, slug);
    if FindApp(apps, [(Name, FText(name))]).Some? then Some(Invalid(DuplicateNameMessage, NameField, Duplicate))
    else if FindApp(apps, [(WorkspaceSlug, FText(slug))]).Some? then Some(SlugConflict(slug))
    else None
  }

  /** What `registerApp` decides once the payload is valid: the record data to create, or
      the first error in the order slug derivation, uniqueness, template lookup. */
  function PlanValidated(apps: seq<AppRecord>, templates: seq<Template>, input: RegistrationInput, validated: Registration)
    : (r: Result<AppCreate, AppError>)
    ensures var slug := DeriveWorkspaceSlug(JsString(validated.name));
            && (slug.Err? ==> r == Err(slug.error))
            && (slug.Ok? && ConflictCheck(apps, validated.name, slug.value).Some? ==>
                  r == Err(ConflictCheck(apps, validated.name, slug.value).value))
            && (slug.Ok? && ConflictCheck(apps, validated.name, slug.value).None? ==>
                  (r.Ok? <==> ResolveTemplate(templates, input).Ok?)
                  && (r.Err? ==> r == Err(ResolveTemplate(templates, input).error)))
    ensures r.Ok? ==>
              && DeriveWorkspaceSlug(JsString(validated.name)).Ok?
              && ConflictCheck(apps, validated.name, DeriveWorkspaceSlug(JsString(validated.name)).value).None?
              && ResolveTemplate(templates, input).Ok?
              && r.value == CreationData(MergeTemplateDefaults(ResolveTemplate(templates, input).value, validated),
                                         DeriveWorkspaceSlug(JsString(validated.name)).value)
  {
    var slug :- DeriveWorkspaceSlug(JsString(validated.name));
    var conflict := ConflictCheck(apps, validated.name, slug);
    if conflict.Some? then Err(conflict.value)
    else
      var template :- ResolveTemplate(templates, input);
      Ok(CreationData(MergeTemplateDefaults(template, validated), slug))
  }

  /** What `registerApp` decides from the stored apps and templates: a validation error, or
      what the validated payload leads to. */
  function RegistrationPlan(apps: seq<AppRecord>, templates: seq<Template>, input: RegistrationInput)
    : (r: Result<AppCreate, AppError>)
    ensures ValidateRegistrationPayload(input).Err? ==> r == Err(ValidateRegistrationPayload(input).error)
    ensures ValidateRegistrationPayload(input).Ok? ==>
              r == PlanValidated(apps, templates, input, ValidateRegistrationPayload(input).value)
  {
    var validated :- ValidateRegistrationPayload(input);
    PlanValidated(apps, templates, input, validated)
  }

  /** A created record always has status STOPPED, the validated name, and a fresh slug
      derived from that name. */
  lemma PlannedRecordFacts(apps: seq<AppRecord>, templates: seq<Template>, input: RegistrationInput,
                           validated: Registration, now: Timestamp)
    requires PlanValidated(apps, templates, input, validated).Ok?
    ensures var record := NewAppRecord(PlanValidated(apps, templates, input, validated).value, |apps|, now);
            && record.status == STOPPED && record.name == validated.name
            && record.workspaceSlug == Some(DeriveWorkspaceSlug(JsString(validated.name)).value)
            && IsSlug(record.workspaceSlug.value)
            && record.lastSeenAt.None? && record.openAppBaseUrl.None?
            && forall a :: a in apps ==> a.name != record.name && a.workspaceSlug != record.workspaceSlug
  {
  }

  /** No two stored apps share a name, and no two share a workspace slug. */
  predicate UniqueNamesAndSlugs(apps: seq<AppRecord>) {
    forall i, j :: 0 <= i < j < |apps| ==>
      apps[i].name != apps[j].name && (apps[i].workspaceSlug.Some? ==> apps[i].workspaceSlug != apps[j].workspaceSlug)
  }

  /** Registration keeps names and slugs unique. */
  lemma RegistrationKeepsNamesUnique(apps: seq<AppRecord>, templates: seq<Template>, input: RegistrationInput,
                                     validated: Registration, now: Timestamp)
    requires UniqueNamesAndSlugs(apps)
    requires PlanValidated(apps, templates, input, validated).Ok?
    ensures UniqueNamesAndSlugs(apps + [NewAppRecord(PlanValidated(apps, templates, input, validated).value, |apps|, now)])
  {
    PlannedRecordFacts(apps, templates, input, validated, now);
    var record := NewAppRecord(PlanValidated(apps, templates, input, validated).value, |apps|, now);
    var after := apps + [record];
    forall i, j | 0 <= i < j < |after|
      ensures after[i].name != after[j].name
      ensures after[i].workspaceSlug.Some? ==> after[i].workspaceSlug != after[j].workspaceSlug
    {
      if j == |apps| {
        assert after[i] in apps;
      } else {
        assert after[i] == apps[i] && after[j] == apps[j];
      }
    }
  }

  /** Registering the same payload again is rejected as a duplicate name. */
  lemma RegisteringTwiceIsDuplicate(apps: seq<AppRecord>, templates: seq<Template>, input: RegistrationInput,
                                    validated: Registration, now: Timestamp)
    requires PlanValidated(apps, templates, input, validated).Ok?
    ensures var record := NewAppRecord(PlanValidated(apps, templates, input, validated).value, |apps|, now);
            PlanValidated(apps + [record], templates, input, validated) == Err(Invalid(DuplicateNameMessage, NameField, Duplicate))
  {
    var record := NewAppRecord(PlanValidated(apps, templates, input, validated).value, |apps|, now);
    assert record in apps + [record] && record.name == validated.name;
    var slug := DeriveWorkspaceSlug(JsString(validated.name)).value;
    assert ConflictCheck(apps + [record], validated.name, slug) == Some(Invalid(DuplicateNameMessage, NameField, Duplicate));
  }

  /** A new name whose derived slug is already held by a stored app is refused with the
      workspace conflict, naming that slug. */
  lemma SameSlugIsConflict(apps: seq<AppRecord>, templates: seq<Template>, input: RegistrationInput,
                           validated: Registration, holder: AppRecord)
    requires forall a :: a in apps ==> a.name != validated.name
    requires DeriveWorkspaceSlug(JsString(validated.name)).Ok?
    requires holder in apps && holder.workspaceSlug == Some(DeriveWorkspaceSlug(JsString(validated.name)).value)
    ensures PlanValidated(apps, templates, input, validated)
              == Err(SlugConflict(DeriveWorkspaceSlug(JsString(validated.name)).value))
  {
    var slug := DeriveWorkspaceSlug(JsString(validated.name)).value;
    assert ConflictCheck(apps, validated.name, slug) == Some(SlugConflict(slug));
  }
}
