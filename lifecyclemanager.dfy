/** The `AppLifecycleManager` object: it registers apps in the store and installs them into
    their workspaces through the injected command runner and file system. The wall clock
    (`new Date()`) is the `now` argument of each operation. */
module LifecycleManager {
  import opened Wrappers
  import opened JsText
  import opened JsValues
  import opened Errors
  import opened Records
  import opened Validation
  import opened Persistence
  import opened Effects
  import opened AppLifecycle

  /** What `installApp` resolves with. */
  datatype Installation = Installation(workspacePath: string, composePath: string)

  /** One status write of an installation, with the number of runner calls issued before it. */
  datatype StatusWrite = StatusWrite(appId: string, status: AppStatus, commandsIssued: nat)

  // ---------------------------------------------------------------- the commands

  function FetchAll(workspacePath: string): Invocation {
    Plain("git", ["-C", workspacePath, "fetch", "--all", "--prune"])
  }

  function ResetHard(workspacePath: string): Invocation {
    Plain("git", ["-C", workspacePath, "reset", "--hard", "origin/HEAD"])
  }

  /** `git clone` runs in the parent of the workspace. */
  function CloneRepository(repositoryUrl: string, workspacePath: string): Invocation {
    Invocation("git", ["clone", repositoryUrl, workspacePath], Some(Dirname(workspacePath)), None)
  }

  /** `docker compose up` runs in the workspace, with the Compose project named after the slug. */
  function ComposeUp(composePath: string, workspacePath: string, slug: string): Invocation {
    Invocation("docker", ["compose", "-f", composePath, "up", "-d"], Some(workspacePath), Some(ContainerNameFor(slug)))
  }

  /** A runner reply as an awaited step: its output is not used. */
  function Settled(reply: Reply): (r: Result<(), AppError>)
    ensures r.Ok? <==> reply.Ok?
    ensures r.Err? ==> r.error == reply.error
  {
    if reply.Ok? then Ok(()) else Err(reply.error)
  }

  // ---------------------------------------------------------------- the status writes

  function InstallingChanges(slug: string): AppChanges {
    AppChanges(Set(INSTALLING), Set(Some(slug)), Keep, Keep, None)
  }

  function RunningChanges(slug: string, now: Timestamp): AppChanges {
    AppChanges(Set(RUNNING), Set(Some(slug)), Set(Some(now)), Keep, None)
  }

  function FailedChanges(): AppChanges {
    AppChanges(Set(FAILED), Keep, Keep, Keep, None)
  }

  // ---------------------------------------------------------------- file system probes

  /** `pathExists`: whether `access` succeeds; every failure reads as absent. */
  method PathExists(fs: FileSystem, path: string) returns (found: bool)
    ensures found <==> path !in fs.denied && fs.Exists(path)
  {
    var r := fs.Access(path);
    found := r.Ok?;
  }

  /** The calls extend the earlier ones with Git commands only. */
  predicate GitCallsOnly(before: seq<Invocation>, after: seq<Invocation>) {
    |before| <= |after| && after[..|before|] == before
    && forall i :: |before| <= i < |after| ==> after[i].command == "git"
  }

  /** The runner's reply to the last command issued since `before` was a failure. */
  predicate LastCommandFailed(runner: CommandRunner, before: seq<Invocation>)
    reads runner
  {
    |runner.calls| > |before| && runner.respond(runner.calls[|runner.calls| - 1]).Err?
  }

  function LastCommandError(runner: CommandRunner, before: seq<Invocation>): AppError
    requires LastCommandFailed(runner, before)
    reads runner
  {
    runner.respond(runner.calls[|runner.calls| - 1]).error
  }

  /** A failure of the file-system side of an installation: an operating-system error, or the
      refusal of a non-empty workspace that is not a clone. */
  predicate WorkspaceFailure(e: AppError) {
    e.SystemError? || (e.InstallationError? && e.installation.Some? && e.installation.value.WorkspaceNotEmpty?)
  }

  /** How an installation step issued after `before` ends: a failed command ends it with that
      command's error, and a step that fails with no failed command fails on the file system. */
  predicate FailsAsRun(runner: CommandRunner, before: seq<Invocation>, r: Result<(), AppError>)
    reads runner
  {
    if LastCommandFailed(runner, before) then r == Err(LastCommandError(runner, before))
    else r.Err? ==> WorkspaceFailure(r.error)
  }

  /** Whether the workspace already holds a Git clone (`pathExists` of its `.git`). */
  predicate HasClone(fs: FileSystem, workspacePath: string)
    reads fs
  {
    var gitFolder := Join(workspacePath, ".git");
    gitFolder !in fs.denied && fs.Exists(gitFolder)
  }

  /** What `isDirectoryEmpty` either reports or throws for a path. */
  predicate EmptyOrMissing(fs: FileSystem, path: string)
    reads fs
  {
    path !in fs.denied && path !in fs.files && (path in fs.dirs ==> fs.Children(path) == {})
  }

  /** `isDirectoryEmpty`: a missing directory counts as empty, other errors are rethrown. */
  method IsDirectoryEmpty(fs: FileSystem, path: string) returns (r: Result<bool, AppError>)
    ensures path in fs.denied ==> r == Err(SystemError("EACCES", path))
    ensures path !in fs.denied && path in fs.files ==> r == Err(SystemError("ENOTDIR", path))
    ensures path !in fs.denied && path !in fs.files && path !in fs.dirs ==> r == Ok(true)
    ensures path !in fs.denied && path !in fs.files && path in fs.dirs ==> r == Ok(fs.Children(path) == {})
    ensures r == Ok(true) <==> EmptyOrMissing(fs, path)
  {
    var contents := fs.Readdir(path);
    if contents.Err? {
      if contents.error.SystemError? && contents.error.code == "ENOENT" {
        return Ok(true);
      }
      return Err(contents.error);
    }
    r := Ok(|contents.value| == 0);
  }

  // ---------------------------------------------------------------- the manager

  class AppLifecycleManager {
    const store: PrismaDouble
    const runner: CommandRunner
    const fs: FileSystem
    const workspaceRoot: string
    const baseImage: string
    /** The status writes of every installation, in order. */
    ghost var statusWrites: seq<StatusWrite>

    /** The constructor: an absent `workspaceRoot` or `baseImage` takes the configured default. */
    constructor(store: PrismaDouble, runner: CommandRunner, fs: FileSystem,
                workspaceRoot: Option<string>, baseImage: Option<string>, env: map<string, string>)
      ensures this.store == store && this.runner == runner && this.fs == fs
      ensures this.workspaceRoot == (if workspaceRoot.Some? then workspaceRoot.value else DefaultWorkspaceRoot(env))
      ensures this.baseImage == (if baseImage.Some? then baseImage.value else DefaultBaseImage(env))
      ensures statusWrites == []
    {
      this.store := store;
      this.runner := runner;
      this.fs := fs;
      this.workspaceRoot := if workspaceRoot.Some? then workspaceRoot.value else DefaultWorkspaceRoot(env);
      this.baseImage := if baseImage.Some? then baseImage.value else DefaultBaseImage(env);
      statusWrites := [];
    }

    /** `registerApp`: validates the payload, refuses a taken name or slug, resolves the
        template, and creates the record; an error writes nothing. */
    method RegisterApp(input: RegistrationInput, now: Timestamp) returns (r: Result<AppRecord, AppError>)
      modifies store
      ensures var plan := old(RegistrationPlan(store.apps, store.templates, input));
              && (plan.Err? ==> r == Err(plan.error) && store.apps == old(store.apps))
              && (plan.Ok? ==> r == Ok(NewAppRecord(plan.value, |old(store.apps)|, now))
                               && store.apps == old(store.apps) + [r.value])
      ensures store.templates == old(store.templates) && store.containerStates == old(store.containerStates)
      ensures store.appSettings == old(store.appSettings)
    {
      var validated :- ValidateRegistrationPayload(input);
      var workspaceSlug :- DeriveWorkspaceSlug(JsString(validated.name));
      FindByName(store.apps, validated.name);
      FindBySlug(store.apps, workspaceSlug);
      var nameConflict := store.FindUniqueApp([(Name, FText(validated.name))], NoRelations);
      var slugConflict := store.FindUniqueApp([(WorkspaceSlug, FText(workspaceSlug))], NoRelations);
      if nameConflict.Some? {
        return Err(Invalid(DuplicateNameMessage, NameField, Duplicate));
      }
      if slugConflict.Some? {
        return Err(SlugConflict(workspaceSlug));
      }
      var template: Option<Template> := None;
      if Truthy(input.templateId) {
        template := store.FindUniqueTemplate(TemplateWhere(AsText(input.templateId), None));
        if template.None? {
          return Err(Invalid(TemplateNotFoundMessage, TemplateIdField, NotFound));
        }
      } else if Truthy(input.templateName) {
        template := store.FindUniqueTemplate(TemplateWhere(None, AsText(input.templateName)));
        if template.None? {
          return Err(Invalid(TemplateNotFoundMessage, TemplateNameField, NotFound));
        }
      }
      var merged := MergeTemplateDefaults(template, validated);
      var record := store.CreateApp(CreationData(merged, workspaceSlug), now);
      r := Ok(record);
    }

    /** The `.git` branch of `syncRepository`: fetch, then a hard reset once the fetch succeeded. */
    method UpdateClone(workspacePath: string) returns (r: Result<(), AppError>)
      modifies runner
      ensures FailsAsRun(runner, old(runner.calls), r)
      ensures GitCallsOnly(old(runner.calls), runner.calls) && (r.Ok? ==> |runner.calls| > |old(runner.calls)|)
      ensures var fetch := runner.respond(FetchAll(workspacePath));
              && runner.calls == old(runner.calls) + [FetchAll(workspacePath)]
                                 + (if fetch.Ok? then [ResetHard(workspacePath)] else [])
              && r == (if fetch.Err? then Err(fetch.error) else Settled(runner.respond(ResetHard(workspacePath))))
    {
      var fetched := runner.Run(FetchAll(workspacePath));
      if fetched.Err? {
        return Err(fetched.error);
      }
      var reset := runner.Run(ResetHard(workspacePath));
      r := Settled(reset);
    }

    /** The clone branch of `syncRepository`: create the parent directory, then clone into the
        workspace from there; a successful clone leaves the workspace directory behind. */
    method CloneFresh(repositoryUrl: string, workspacePath: string) returns (r: Result<(), AppError>)
      modifies runner, fs
      ensures FailsAsRun(runner, old(runner.calls), r)
      ensures GitCallsOnly(old(runner.calls), runner.calls) && (r.Ok? ==> |runner.calls| > |old(runner.calls)|)
      ensures fs.files == old(fs.files)
      ensures var parent := Dirname(workspacePath);
              !old(fs.MkdirSucceeds(parent)) ==> r.Err? && runner.calls == old(runner.calls) && fs.dirs == old(fs.dirs)
      ensures var parent := Dirname(workspacePath);
              var clone := CloneRepository(repositoryUrl, workspacePath);
              old(fs.MkdirSucceeds(parent)) ==>
                && runner.calls == old(runner.calls) + [clone]
                && r == Settled(runner.respond(clone))
                && fs.dirs == old(fs.dirs) + {parent} + Ancestors(parent) + (if r.Ok? then {workspacePath} else {})
    {
      var parent := Dirname(workspacePath);
      var made :- fs.Mkdir(parent);
      var cloned := runner.Run(CloneRepository(repositoryUrl, workspacePath));
      if cloned.Ok? {
        fs.CloneInto(workspacePath);
      }
      r := Settled(cloned);
    }

    /** `syncRepository`: updates an existing clone, refuses a non-empty directory that is not
        a clone, and otherwise clones into the workspace from its parent directory. */
    method SyncRepository(repositoryUrl: string, workspacePath: string) returns (r: Result<(), AppError>)
      modifies runner, fs
      ensures FailsAsRun(runner, old(runner.calls), r)
      ensures GitCallsOnly(old(runner.calls), runner.calls) && (r.Ok? ==> |runner.calls| > |old(runner.calls)|)
      ensures fs.files == old(fs.files)
      ensures old(HasClone(fs, workspacePath)) ==>
                var fetch := runner.respond(FetchAll(workspacePath));
                && runner.calls == old(runner.calls) + [FetchAll(workspacePath)]
                                   + (if fetch.Ok? then [ResetHard(workspacePath)] else [])
                && r == (if fetch.Err? then Err(fetch.error) else Settled(runner.respond(ResetHard(workspacePath))))
                && fs.dirs == old(fs.dirs)
      ensures old(!HasClone(fs, workspacePath) && !EmptyOrMissing(fs, workspacePath)) ==>
                && runner.calls == old(runner.calls) && fs.dirs == old(fs.dirs)
                && (workspacePath in fs.denied ==> r == Err(SystemError("EACCES", workspacePath)))
                && (workspacePath !in fs.denied && workspacePath in fs.files ==> r == Err(SystemError("ENOTDIR", workspacePath)))
                && (workspacePath !in fs.denied && workspacePath !in fs.files ==>
                      r == Err(InstallationError(WorkspaceNotEmptyMessage, Some(WorkspaceNotEmpty(workspacePath)))))
      ensures var parent := Dirname(workspacePath);
              var clone := CloneRepository(repositoryUrl, workspacePath);
              old(!HasClone(fs, workspacePath) && EmptyOrMissing(fs, workspacePath)) ==>
                && (!old(fs.MkdirSucceeds(parent)) ==> r.Err? && runner.calls == old(runner.calls) && fs.dirs == old(fs.dirs))
                && (old(fs.MkdirSucceeds(parent)) ==>
                      && runner.calls == old(runner.calls) + [clone]
                      && r == Settled(runner.respond(clone))
                      && fs.dirs == old(fs.dirs) + {parent} + Ancestors(parent)
                                    + (if r.Ok? then {workspacePath} else {}))
    {
      var gitExists := PathExists(fs, Join(workspacePath, ".git"));
      if gitExists {
        r := UpdateClone(workspacePath);
        return;
      }
      var directoryIsEmpty :- IsDirectoryEmpty(fs, workspacePath);
      if !directoryIsEmpty {
        return Err(InstallationError(WorkspaceNotEmptyMessage, Some(WorkspaceNotEmpty(workspacePath))));
      }
      r := CloneFresh(repositoryUrl, workspacePath);
    }

    /** The Compose file of an installation: the app with its resolved slug, mounted from the
        workspace, on the configured base image. */
    function ComposeContent(app: AppRecord, slug: string, workspacePath: string): string {
      Unlines(ComposeLines(slug, workspacePath, baseImage, app.port, app.startCommand))
    }

    /** It is what `generateComposeFile` produces for the app with its slug filled in. */
    lemma ComposeContentIsGenerated(app: AppRecord, slug: string, workspacePath: string)
      ensures GenerateComposeFile(app.(workspaceSlug := Some(slug)), workspacePath, baseImage)
                == Ok(ComposeContent(app, slug, workspacePath))
    {
    }

    /** `syncRepository` as the guarded part of `installApp` relies on it: only Git commands. */
    method SyncStep(repositoryUrl: string, workspacePath: string) returns (r: Result<(), AppError>)
      modifies runner, fs
      ensures FailsAsRun(runner, old(runner.calls), r)
      ensures GitCallsOnly(old(runner.calls), runner.calls) && (r.Ok? ==> |runner.calls| > |old(runner.calls)|)
    {
      r := SyncRepository(repositoryUrl, workspacePath);
    }

    /** The first step of the guarded part of `installApp`: sync the repository when cloning
        is not skipped and the app has a repository URL, otherwise just create the workspace. */
    method PrepareWorkspace(app: AppRecord, workspacePath: string, skipClone: bool) returns (r: Result<(), AppError>)
      modifies runner, fs
      ensures FailsAsRun(runner, old(runner.calls), r)
      ensures GitCallsOnly(old(runner.calls), runner.calls)
      ensures !skipClone && IsTruthyText(app.repositoryUrl) && r.Ok? ==> |runner.calls| > |old(runner.calls)|
      ensures skipClone || !IsTruthyText(app.repositoryUrl) ==>
                runner.calls == old(runner.calls) && (r.Ok? <==> old(fs.MkdirSucceeds(workspacePath)))
    {
      if !skipClone && IsTruthyText(app.repositoryUrl) {
        r := SyncStep(app.repositoryUrl.value, workspacePath);
      } else {
        r := fs.Mkdir(workspacePath);
      }
    }

    /** The last step of the guarded part of `installApp`: write the Compose file, then
        `docker compose up` once it is written. */
    method ComposeAndStart(app: AppRecord, slug: string, workspacePath: string, composePath: string)
      returns (r: Result<(), AppError>)
      modifies runner, fs
      ensures FailsAsRun(runner, old(runner.calls), r)
      ensures var up := ComposeUp(composePath, workspacePath, slug);
              || (runner.calls == old(runner.calls) && r.Err?)
              || (runner.calls == old(runner.calls) + [up] && r == Settled(runner.respond(up)))
      ensures r.Ok? ==> composePath in fs.files && fs.files[composePath] == ComposeContent(app, slug, workspacePath)
    {
      var composeContent := ComposeContent(app, slug, workspacePath);
      var written :- fs.WriteFile(composePath, composeContent);
      var up := runner.Run(ComposeUp(composePath, workspacePath, slug));
      r := Settled(up);
    }

    /** The guarded part of `installApp`: prepare the workspace, write the Compose file, and
        bring the service up; every command before `docker compose up` is a Git command. */
    method Deploy(app: AppRecord, slug: string, workspacePath: string, composePath: string, skipClone: bool)
      returns (r: Result<(), AppError>)
      modifies runner, fs
      ensures FailsAsRun(runner, old(runner.calls), r)
      ensures |runner.calls| >= |old(runner.calls)| && runner.calls[..|old(runner.calls)|] == old(runner.calls)
      ensures var up := ComposeUp(composePath, workspacePath, slug);
              r.Ok? <==> |runner.calls| > |old(runner.calls)| && runner.calls[|runner.calls| - 1] == up
                         && runner.respond(up).Ok?
      ensures r.Ok? ==> composePath in fs.files && fs.files[composePath] == ComposeContent(app, slug, workspacePath)
      ensures !skipClone && IsTruthyText(app.repositoryUrl) && r.Ok? ==> runner.calls[|old(runner.calls)|].command == "git"
      ensures skipClone || !IsTruthyText(app.repositoryUrl) ==>
                runner.calls == old(runner.calls) || runner.calls == old(runner.calls) + [ComposeUp(composePath, workspacePath, slug)]
      ensures (skipClone || !IsTruthyText(app.repositoryUrl)) && !old(fs.MkdirSucceeds(workspacePath)) ==>
                r.Err? && runner.calls == old(runner.calls)
    {
      ghost var before := runner.calls;
      var prepared := PrepareWorkspace(app, workspacePath, skipClone);
      if prepared.Err? {
        assert runner.calls == before || runner.calls[|runner.calls| - 1].command == "git";
        return prepared;
      }
      ghost var middle := runner.calls;
      assert !(|middle| > |before| && runner.respond(middle[|middle| - 1]).Err?);
      r := ComposeAndStart(app, slug, workspacePath, composePath);
      assert runner.calls[..|middle|] == middle;
      assert LastCommandFailed(runner, before) <==> LastCommandFailed(runner, middle);
      if r.Err? && runner.calls != middle {
        assert runner.calls[|runner.calls| - 1] == ComposeUp(composePath, workspacePath, slug);
      }
    }

    /** One `app.update` of an installation: it rewrites the record at the app's index, which
        the same id still finds afterwards, and is logged with the number of commands issued. */
    method WriteStatus(id: string, i: nat, changes: AppChanges, status: AppStatus, now: Timestamp)
      returns (written: AppRecord)
      requires AppIndex(store.apps, id) == Some(i)
      modifies this, store
      ensures written == ApplyAppChanges(old(store.apps[i]), changes, now)
      ensures store.apps == old(store.apps)[i := written] && AppIndex(store.apps, id) == Some(i)
      ensures store.templates == old(store.templates) && store.containerStates == old(store.containerStates)
      ensures store.appSettings == old(store.appSettings)
      ensures statusWrites == old(statusWrites) + [StatusWrite(id, status, |runner.calls|)]
    {
      AppIndexAfterUpdate(store.apps, id, changes, now);
      var updated := store.UpdateApp(id, changes, now);
      written := updated.value;
      statusWrites := statusWrites + [StatusWrite(id, status, |runner.calls|)];
    }

    /** The workspace of an app slug under the configured root. */
    function WorkspaceOf(slug: string): string {
      Join(workspaceRoot, slug)
    }

    function ComposePathOf(slug: string): string {
      Join(WorkspaceOf(slug), ComposeFileName)
    }

    /** The slug's workspace holds the Compose file generated for the app. */
    ghost predicate ComposeFileWritten(app: AppRecord, slug: string)
      reads this, fs
    {
      ComposePathOf(slug) in fs.files && fs.files[ComposePathOf(slug)] == ComposeContent(app, slug, WorkspaceOf(slug))
    }

    /** What an installation that got past the workspace root leaves behind, against the
        collection, call count and status log before it: INSTALLING written before any command,
        then RUNNING with `lastSeenAt` after `docker compose up` succeeded on the written Compose
        file, or FAILED. */
    ghost predicate InstallationRecorded(appsBefore: seq<AppRecord>, callsBefore: nat, writesBefore: seq<StatusWrite>,
                                         app: AppRecord, i: nat, slug: string, now: Timestamp, succeeded: bool)
      reads this, store, runner, fs
    {
      var installing := ApplyAppChanges(app, InstallingChanges(slug), now);
      && i < |appsBefore|
      && statusWrites == writesBefore
           + [StatusWrite(app.id, INSTALLING, callsBefore),
              StatusWrite(app.id, if succeeded then RUNNING else FAILED, |runner.calls|)]
      && (succeeded ==>
            && store.apps == appsBefore[i := ApplyAppChanges(installing, RunningChanges(slug, now), now)]
            && |runner.calls| > 0
            && runner.calls[|runner.calls| - 1] == ComposeUp(ComposePathOf(slug), WorkspaceOf(slug), slug)
            && ComposeFileWritten(app, slug))
      && (!succeeded ==> store.apps == appsBefore[i := ApplyAppChanges(installing, FailedChanges(), now)])
    }

    /** `Deploy` into the slug's workspace, with what the status writes after it rely on. */
    method DeployInWorkspace(app: AppRecord, slug: string, skipClone: bool) returns (r: Result<(), AppError>)
      modifies runner, fs
      ensures FailsAsRun(runner, old(runner.calls), r)
      ensures r.Ok? ==> && |runner.calls| > 0
                        && runner.calls[|runner.calls| - 1] == ComposeUp(ComposePathOf(slug), WorkspaceOf(slug), slug)
                        && ComposeFileWritten(app, slug)
    {
      r := Deploy(app, slug, WorkspaceOf(slug), ComposePathOf(slug), skipClone);
    }

    /** The part of `installApp` after the workspace root exists: the INSTALLING write, the
        deployment, and the final status write. */
    method RunInstallation(app: AppRecord, i: nat, slug: string, skipClone: bool, now: Timestamp)
      returns (r: Result<(), AppError>)
      requires AppIndex(store.apps, app.id) == Some(i) && store.apps[i] == app
      modifies this, store, runner, fs
      ensures FailsAsRun(runner, old(runner.calls), r)
      ensures InstallationRecorded(old(store.apps), |old(runner.calls)|, old(statusWrites), app, i, slug, now, r.Ok?)
      ensures store.templates == old(store.templates) && store.containerStates == old(store.containerStates)
      ensures store.appSettings == old(store.appSettings)
    {
      var marked := WriteStatus(app.id, i, InstallingChanges(slug), INSTALLING, now);
      var deployed := DeployInWorkspace(app, slug, skipClone);
      ghost var deployedCalls := runner.calls;
      if deployed.Ok? {
        var running := WriteStatus(app.id, i, RunningChanges(slug, now), RUNNING, now);
        assert runner.calls == deployedCalls;
        return Ok(());
      }
      var failed := WriteStatus(app.id, i, FailedChanges(), FAILED, now);
      assert runner.calls == deployedCalls;
      r := Err(deployed.error);
    }

    /** The lookups `installApp` makes before writing anything: the app's index and record,
        and its stored or derived slug. */
    method FindInstallTarget(appId: string) returns (r: Result<(nat, AppRecord, string), AppError>)
      ensures AppIndex(store.apps, appId).None? ==> r == Err(Invalid(ApplicationNotFoundMessage, AppIdField, NotFound))
      ensures AppIndex(store.apps, appId).Some? ==>
                var i := AppIndex(store.apps, appId).value;
                var slug := ComposeSlug(store.apps[i]);
                && (slug.Err? ==> r == Err(slug.error))
                && (slug.Ok? ==> r == Ok((i, store.apps[i], slug.value)))
    {
      FindByIdIsAppIndex(store.apps, appId);
      var found := store.FindUniqueApp([(Id, FText(appId))], NoRelations);
      if found.None? {
        return Err(Invalid(ApplicationNotFoundMessage, AppIdField, NotFound));
      }
      var app := found.value.record;
      var workspaceSlug :- ComposeSlug(app);
      r := Ok((AppIndex(store.apps, appId).value, app, workspaceSlug));
    }

    /** `installApp`: looks the app up, resolves its slug and workspace, marks it INSTALLING
        before any command runs, deploys it, and records RUNNING (with `lastSeenAt`) on
        success or FAILED on any failure of the deployment, which is rethrown wrapped. */
    method InstallApp(appId: string, skipClone: bool, now: Timestamp) returns (r: Result<Installation, AppError>)
      modifies this, store, runner, fs
      ensures var index := old(AppIndex(store.apps, appId));
              index.None? ==> r == Err(Invalid(ApplicationNotFoundMessage, AppIdField, NotFound))
                              && unchanged(this, store, runner, fs)
      ensures var index := old(AppIndex(store.apps, appId));
              index.Some? && ComposeSlug(old(store.apps[index.value])).Err? ==>
                r == Err(ComposeSlug(old(store.apps[index.value])).error) && unchanged(this, store, runner, fs)
      ensures var index := old(AppIndex(store.apps, appId));
              index.Some? && ComposeSlug(old(store.apps[index.value])).Ok? && !old(fs.MkdirSucceeds(workspaceRoot)) ==>
                r.Err? && r.error.SystemError? && r.error.path == workspaceRoot && unchanged(this, store, runner)
      ensures var index := old(AppIndex(store.apps, appId));
              index.Some? && ComposeSlug(old(store.apps[index.value])).Ok? && old(fs.MkdirSucceeds(workspaceRoot)) ==>
                var app := old(store.apps[index.value]);
                var slug := ComposeSlug(app).value;
                && InstallationRecorded(old(store.apps), |old(runner.calls)|, old(statusWrites), app, index.value, slug, now, r.Ok?)
                && (r.Ok? ==> r.value == Installation(WorkspaceOf(slug), ComposePathOf(slug)))
                && (r.Err? ==> r.error.InstallationError? && r.error.message == InstallFailedMessage
                               && r.error.installation.Some? && r.error.installation.value.CausedBy?
                               && FailsAsRun(runner, old(runner.calls), Err(r.error.installation.value.cause)))
      ensures store.templates == old(store.templates) && store.containerStates == old(store.containerStates)
      ensures store.appSettings == old(store.appSettings)
    {
      var target :- FindInstallTarget(appId);
      var (i, app, workspaceSlug) := target;
      var made :- fs.Mkdir(workspaceRoot);
      var deployed := RunInstallation(app, i, workspaceSlug, skipClone, now);
      if deployed.Err? {
        return Err(InstallationError(InstallFailedMessage, Some(CausedBy(deployed.error))));
      }
      r := Ok(Installation(WorkspaceOf(workspaceSlug), ComposePathOf(workspaceSlug)));
    }
  }

  const PrismaRequiredMessage := "Prisma client instance is required."

  /** `createAppLifecycleManager`: the constructor refuses a missing store. */
  method CreateAppLifecycleManager(store: PrismaDouble?, runner: CommandRunner, fs: FileSystem,
                                   workspaceRoot: Option<string>, baseImage: Option<string>, env: map<string, string>)
    returns (r: Result<AppLifecycleManager, AppError>)
    ensures store == null ==> r == Err(PlainError(PrismaRequiredMessage))
    ensures store != null ==>
              && r.Ok? && fresh(r.value)
              && r.value.store == store && r.value.runner == runner && r.value.fs == fs
              && r.value.workspaceRoot == (if workspaceRoot.Some? then workspaceRoot.value else DefaultWorkspaceRoot(env))
              && r.value.baseImage == (if baseImage.Some? then baseImage.value else DefaultBaseImage(env))
              && r.value.statusWrites == []
  {
    if store == null {
      return Err(PlainError(PrismaRequiredMessage));
    }
    var manager := new AppLifecycleManager(store, runner, fs, workspaceRoot, baseImage, env);
    r := Ok(manager);
  }
}
