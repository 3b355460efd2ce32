/** The in-memory store double: four record collections mutated in place by
    `create`, `update`, `upsert` and `delete`, and read by `findUnique`/`findMany`.
    Wall-clock readings (`new Date()`) are the `now` argument of each writing operation. */
module Persistence {
  import opened Wrappers
  import opened JsText
  import opened Errors
  import opened Records

  // ---------------------------------------------------------------- search helpers

  /** `Array.prototype.findIndex`: the first position whose element satisfies `p`. */
  function FirstIndex<T>(s: seq<T>, p: T -> bool): (r: Option<nat>)
    ensures r.Some? ==> r.value < |s| && p(s[r.value]) && forall j :: 0 <= j < r.value ==> !p(s[j])
    ensures r.None? ==> forall j :: 0 <= j < |s| ==> !p(s[j])
  {
    if s == [] then None
    else if p(s[0]) then Some(0)
    else
      var rest := FirstIndex(s[1..], p);
      assert forall j :: 1 <= j < |s| ==> s[j] == s[1..][j - 1];
      if rest.Some? then Some(rest.value + 1) else None
  }

  /** `Array.prototype.find`: the first element that satisfies `p`. */
  function Find<T>(s: seq<T>, p: T -> bool): (r: Option<T>)
    ensures r.Some? ==> exists i :: 0 <= i < |s| && s[i] == r.value && p(s[i]) && forall j :: 0 <= j < i ==> !p(s[j])
    ensures r.None? ==> forall x :: x in s ==> !p(x)
  {
    var i := FirstIndex(s, p);
    if i.Some? then Some(s[i.value]) else None
  }

  /** The container states of one app, in store order (`filter` by `appId`). */
  function StatesOf(states: seq<ContainerState>, appId: string): (r: seq<ContainerState>)
    ensures forall x :: x in r ==> x in states && x.appId == appId
    ensures forall x :: x in states && x.appId == appId ==> x in r
    ensures |r| <= |states|
  {
    if states == [] then []
    else
      var rest := StatesOf(states[1..], appId);
      assert forall x :: x in states ==> x == states[0] || x in states[1..];
      if states[0].appId == appId then [states[0]] + rest else rest
  }

  /** Filtering keeps store order: the states of a concatenation are those of each part, in
      turn, and a single state is kept exactly when it belongs to the app. */
  lemma {:induction false} StatesOfConcat(a: seq<ContainerState>, b: seq<ContainerState>, appId: string)
    ensures StatesOf(a + b, appId) == StatesOf(a, appId) + StatesOf(b, appId)
    ensures forall s :: StatesOf([s], appId) == if s.appId == appId then [s] else []
  {
    if a == [] {
      assert a + b == b;
    } else {
      assert (a + b)[1..] == a[1..] + b;
      StatesOfConcat(a[1..], b, appId);
    }
  }

  /** The fields of an App record enabled in a `select` object. */
  function Selected(app: AppRecord, select: set<AppField>): (r: map<AppField, FieldValue>)
    ensures r.Keys == select
    ensures forall f :: f in r ==> r[f] == FieldOf(app, f)
  {
    map f | f in select :: FieldOf(app, f)
  }

  // ---------------------------------------------------------------- query arguments

  /** The `include` object of an app query. */
  datatype Include = Include(containerStates: bool, settings: bool)

  /** One entry of a `where` object: a key of the App record and the value it must hold. */
  type Condition = (AppField, FieldValue)

  /** The `where` of `marketplaceTemplate.findUnique` (`None`: key absent or null). */
  datatype TemplateWhere = TemplateWhere(id: Option<string>, name: Option<string>)

  /** The `where` of `dockerContainerState.delete`. */
  datatype StateWhere = StateWhere(appId: Option<string>, id: Option<string>)

  /** The `update` object of a settings upsert: the keys given, plus an optional `updatedAt`. */
  datatype SettingsChanges = SettingsChanges(openAppBaseUrl: Patch<Option<string>>, updatedAt: Option<Timestamp>)

  /** The `create` object of a settings upsert. */
  datatype SettingsCreate = SettingsCreate(
    id: Option<string>, appId: string, openAppBaseUrl: Option<string>,
    createdAt: Option<Timestamp>, updatedAt: Option<Timestamp>)

  /** The `update`/`data` object of a container-state write. */
  datatype StateChanges = StateChanges(snapshot: Patch<Snapshot>, updatedAt: Option<Timestamp>)

  /** The `create` object of a container-state upsert. */
  datatype StateCreate = StateCreate(
    id: Option<string>, appId: string, snapshot: Snapshot,
    createdAt: Option<Timestamp>, updatedAt: Option<Timestamp>)

  // ---------------------------------------------------------------- specification of the writes

  /** The record `app.create` builds: defaults for id, timestamps, status, lastSeenAt and
      openAppBaseUrl, each overridden by a supplied key. */
  function NewAppRecord(data: AppCreate, count: nat, now: Timestamp): (r: AppRecord)
    ensures r.id == (if data.id.Some? then data.id.value else "app_" + NatToString(count + 1))
    ensures r.status == (if data.status.Some? then data.status.value else STOPPED)
    ensures r.createdAt == (if data.createdAt.Some? then data.createdAt.value else now)
    ensures r.updatedAt == (if data.updatedAt.Some? then data.updatedAt.value else now)
    ensures data.lastSeenAt.None? ==> r.lastSeenAt.None?
    ensures data.openAppBaseUrl.None? ==> r.openAppBaseUrl.None?
    ensures r.name == data.name && r.workspaceSlug == data.workspaceSlug && r.repositoryUrl == data.repositoryUrl
    ensures r.port == data.port && r.startCommand == data.startCommand
    ensures r.healthEndpoint == data.healthEndpoint && r.notes == data.notes
  {
    AppRecord(
      id := data.id.OrElse(Some("app_" + NatToString(count + 1))).value,
      name := data.name,
      workspaceSlug := data.workspaceSlug,
      repositoryUrl := data.repositoryUrl,
      port := data.port,
      status := data.status.OrElse(Some(STOPPED)).value,
      startCommand := data.startCommand,
      healthEndpoint := data.healthEndpoint,
      notes := data.notes,
      openAppBaseUrl := data.openAppBaseUrl,
      lastSeenAt := data.lastSeenAt,
      createdAt := data.createdAt.OrElse(Some(now)).value,
      updatedAt := data.updatedAt.OrElse(Some(now)).value)
  }

  /** `{ ...app, ...data, updatedAt: data.updatedAt ?? new Date() }`. */
  function ApplyAppChanges(app: AppRecord, changes: AppChanges, now: Timestamp): (r: AppRecord)
    ensures r.status == changes.status.Apply(app.status)
    ensures r.workspaceSlug == changes.workspaceSlug.Apply(app.workspaceSlug)
    ensures r.lastSeenAt == changes.lastSeenAt.Apply(app.lastSeenAt)
    ensures r.openAppBaseUrl == changes.openAppBaseUrl.Apply(app.openAppBaseUrl)
    ensures r.updatedAt == (if changes.updatedAt.Some? then changes.updatedAt.value else now)
    ensures r.id == app.id && r.name == app.name && r.repositoryUrl == app.repositoryUrl
    ensures r.port == app.port && r.startCommand == app.startCommand
    ensures r.healthEndpoint == app.healthEndpoint && r.notes == app.notes && r.createdAt == app.createdAt
  {
    app.(status := changes.status.Apply(app.status),
         workspaceSlug := changes.workspaceSlug.Apply(app.workspaceSlug),
         lastSeenAt := changes.lastSeenAt.Apply(app.lastSeenAt),
         openAppBaseUrl := changes.openAppBaseUrl.Apply(app.openAppBaseUrl),
         updatedAt := changes.updatedAt.OrElse(Some(now)).value)
  }

  function AppIndex(apps: seq<AppRecord>, id: string): Option<nat> {
    FirstIndex(apps, (a: AppRecord) => a.id == id)
  }

  function AppNotFoundMessage(id: string): string {
    "App with id " + id + " not found."
  }

  /** What `app.update` leaves in the collection and returns. */
  function AppsAfterUpdate(apps: seq<AppRecord>, id: string, changes: AppChanges, now: Timestamp)
    : (r: (seq<AppRecord>, Result<AppRecord, AppError>))
    ensures AppIndex(apps, id).None? ==> r == (apps, Err(PlainError(AppNotFoundMessage(id))))
    ensures AppIndex(apps, id).Some? ==>
              var i := AppIndex(apps, id).value;
              r.1 == Ok(ApplyAppChanges(apps[i], changes, now)) && r.0 == apps[i := r.1.value]
  {
    var index := AppIndex(apps, id);
    if index.None? then (apps, Err(PlainError(AppNotFoundMessage(id))))
    else
      var updated := ApplyAppChanges(apps[index.value], changes, now);
      (apps[index.value := updated], Ok(updated))
  }

  function NewSettings(create: SettingsCreate, count: nat, now: Timestamp): (r: Settings)
    ensures r.id == (if create.id.Some? then create.id.value else "settings_" + NatToString(count + 1))
    ensures r.appId == create.appId && r.openAppBaseUrl == create.openAppBaseUrl
    ensures r.createdAt == (if create.createdAt.Some? then create.createdAt.value else now)
    ensures r.updatedAt == (if create.updatedAt.Some? then create.updatedAt.value else now)
  {
    Settings(create.id.OrElse(Some("settings_" + NatToString(count + 1))).value, create.appId,
             create.openAppBaseUrl, create.createdAt.OrElse(Some(now)).value, create.updatedAt.OrElse(Some(now)).value)
  }

  function ApplySettingsChanges(s: Settings, changes: SettingsChanges, now: Timestamp): (r: Settings)
    ensures r.id == s.id && r.appId == s.appId && r.createdAt == s.createdAt
    ensures r.openAppBaseUrl == changes.openAppBaseUrl.Apply(s.openAppBaseUrl)
    ensures r.updatedAt == (if changes.updatedAt.Some? then changes.updatedAt.value else now)
  {
    s.(openAppBaseUrl := changes.openAppBaseUrl.Apply(s.openAppBaseUrl),
       updatedAt := changes.updatedAt.OrElse(Some(now)).value)
  }

  function SettingsIndex(settings: seq<Settings>, appId: string): Option<nat> {
    FirstIndex(settings, (s: Settings) => s.appId == appId)
  }

  /** What `appSettings.upsert` leaves in the collection and returns. */
  function SettingsAfterUpsert(settings: seq<Settings>, appId: string, update: SettingsChanges,
                               create: SettingsCreate, now: Timestamp): (r: (seq<Settings>, Settings))
    ensures SettingsIndex(settings, appId).None? ==> r.1 == NewSettings(create, |settings|, now) && r.0 == settings + [r.1]
    ensures SettingsIndex(settings, appId).Some? ==>
              var i := SettingsIndex(settings, appId).value;
              r.1 == ApplySettingsChanges(settings[i], update, now) && r.0 == settings[i := r.1]
  {
    var index := SettingsIndex(settings, appId);
    if index.None? then
      var record := NewSettings(create, |settings|, now);
      (settings + [record], record)
    else
      var updated := ApplySettingsChanges(settings[index.value], update, now);
      (settings[index.value := updated], updated)
  }

  function NewState(create: StateCreate, count: nat, now: Timestamp): (r: ContainerState)
    ensures r.id == (if create.id.Some? then create.id.value else "state_" + NatToString(count + 1))
    ensures r.appId == create.appId && r.snapshot == create.snapshot
    ensures r.createdAt == (if create.createdAt.Some? then create.createdAt.value else now)
    ensures r.updatedAt == (if create.updatedAt.Some? then create.updatedAt.value else now)
  {
    ContainerState(create.id.OrElse(Some("state_" + NatToString(count + 1))).value, create.appId,
                   create.snapshot, create.createdAt.OrElse(Some(now)).value, create.updatedAt.OrElse(Some(now)).value)
  }

  function ApplyStateChanges(s: ContainerState, changes: StateChanges, now: Timestamp): (r: ContainerState)
    ensures r.id == s.id && r.appId == s.appId && r.createdAt == s.createdAt
    ensures r.snapshot == changes.snapshot.Apply(s.snapshot)
    ensures r.updatedAt == (if changes.updatedAt.Some? then changes.updatedAt.value else now)
  {
    s.(snapshot := changes.snapshot.Apply(s.snapshot), updatedAt := changes.updatedAt.OrElse(Some(now)).value)
  }

  function StateIndex(states: seq<ContainerState>, appId: string): Option<nat> {
    FirstIndex(states, (s: ContainerState) => s.appId == appId)
  }

  /** What `dockerContainerState.upsert` leaves in the collection and returns. */
  function StatesAfterUpsert(states: seq<ContainerState>, appId: string, update: StateChanges,
                             create: StateCreate, now: Timestamp): (r: (seq<ContainerState>, ContainerState))
    ensures StateIndex(states, appId).None? ==> r.1 == NewState(create, |states|, now) && r.0 == states + [r.1]
    ensures StateIndex(states, appId).Some? ==>
              var i := StateIndex(states, appId).value;
              r.1 == ApplyStateChanges(states[i], update, now) && r.0 == states[i := r.1]
  {
    var index := StateIndex(states, appId);
    if index.None? then
      var record := NewState(create, |states|, now);
      (states + [record], record)
    else
      var updated := ApplyStateChanges(states[index.value], update, now);
      (states[index.value := updated], updated)
  }

  function StateNotFoundMessage(appId: string): string {
    "Container state for app " + appId + " not found."
  }

  /** What `dockerContainerState.update` leaves in the collection and returns. */
  function StatesAfterUpdate(states: seq<ContainerState>, appId: string, changes: StateChanges, now: Timestamp)
    : (r: (seq<ContainerState>, Result<ContainerState, AppError>))
    ensures StateIndex(states, appId).None? ==> r == (states, Err(PlainError(StateNotFoundMessage(appId))))
    ensures StateIndex(states, appId).Some? ==>
              var i := StateIndex(states, appId).value;
              r.1 == Ok(ApplyStateChanges(states[i], changes, now)) && r.0 == states[i := r.1.value]
  {
    var index := StateIndex(states, appId);
    if index.None? then (states, Err(PlainError(StateNotFoundMessage(appId))))
    else
      var updated := ApplyStateChanges(states[index.value], changes, now);
      (states[index.value := updated], Ok(updated))
  }

  /** The matcher of `dockerContainerState.delete`: by a non-empty `appId` if given, else by a
      non-empty `id`, else nothing matches. */
  predicate DeleteMatches(where: StateWhere, s: ContainerState) {
    if where.appId.Some? && where.appId.value != "" then s.appId == where.appId.value
    else if where.id.Some? && where.id.value != "" then s.id == where.id.value
    else false
  }

  const StateMissingMessage := "Container state not found."

  /** What `dockerContainerState.delete` leaves in the collection and returns: the first match
      is spliced out. */
  function StatesAfterDelete(states: seq<ContainerState>, where: StateWhere)
    : (r: (seq<ContainerState>, Result<ContainerState, AppError>))
    ensures r.1.Err? <==> forall j :: 0 <= j < |states| ==> !DeleteMatches(where, states[j])
    ensures r.1.Err? ==> r.0 == states && r.1.error == PlainError(StateMissingMessage)
    ensures r.1.Ok? ==> |r.0| == |states| - 1 && DeleteMatches(where, r.1.value)
                         && multiset(states) == multiset(r.0) + multiset{r.1.value}
    ensures r.1.Ok? ==> exists i :: 0 <= i < |states| && DeleteMatches(where, states[i])
                                    && (forall j :: 0 <= j < i ==> !DeleteMatches(where, states[j]))
                                    && r.0 == states[..i] + states[i + 1..] && r.1.value == states[i]
  {
    var index := FirstIndex(states, (s: ContainerState) => DeleteMatches(where, s));
    if index.None? then (states, Err(PlainError(StateMissingMessage)))
    else
      var i := index.value;
      assert DeleteMatches(where, states[i]) && forall j :: 0 <= j < i ==> !DeleteMatches(where, states[j]);
      assert states == states[..i] + [states[i]] + states[i + 1..];
      (states[..i] + states[i + 1..], Ok(states[i]))
  }

  /** `marketplaceTemplate.findUnique`: by a non-empty id first, then by a non-empty name. */
  function FindTemplate(templates: seq<Template>, where: TemplateWhere): (r: Option<Template>)
    ensures r.Some? ==> r.value in templates
    ensures where.id.Some? && where.id.value != "" ==>
              r == Find(templates, (t: Template) => t.id == where.id.value)
    ensures !(where.id.Some? && where.id.value != "") && where.name.Some? && where.name.value != "" ==>
              r == Find(templates, (t: Template) => t.name == where.name.value)
    ensures !(where.id.Some? && where.id.value != "") && !(where.name.Some? && where.name.value != "") ==> r.None?
  {
    if where.id.Some? && where.id.value != "" then Find(templates, (t: Template) => t.id == where.id.value)
    else if where.name.Some? && where.name.value != "" then Find(templates, (t: Template) => t.name == where.name.value)
    else None
  }

  /** The first app whose field under the first `where` key holds the given value. */
  function FindApp(apps: seq<AppRecord>, where: seq<Condition>): (r: Option<AppRecord>)
    ensures where == [] ==> r.None?
    ensures r.Some? ==> exists i :: 0 <= i < |apps| && apps[i] == r.value
                                    && FieldOf(apps[i], where[0].0) == where[0].1
                                    && forall j :: 0 <= j < i ==> FieldOf(apps[j], where[0].0) != where[0].1
    ensures where != [] && r.None? ==> forall a :: a in apps ==> FieldOf(a, where[0].0) != where[0].1
  {
    if where == [] then None
    else
      var key, value := where[0].0, where[0].1;
      Find(apps, (a: AppRecord) => FieldOf(a, key) == value)
  }

  // ---------------------------------------------------------------- invariants of the collections

  /** At most one container state per app. */
  predicate OneStatePerApp(states: seq<ContainerState>) {
    forall i, j :: 0 <= i < j < |states| ==> states[i].appId != states[j].appId
  }

  predicate OneSettingsPerApp(settings: seq<Settings>) {
    forall i, j :: 0 <= i < j < |settings| ==> settings[i].appId != settings[j].appId
  }

  /** An upsert whose `create.appId` is its `where.appId` keeps one state per app, and grows
      the collection by at most one. */
  lemma UpsertKeepsOneStatePerApp(states: seq<ContainerState>, appId: string, update: StateChanges,
                                  create: StateCreate, now: Timestamp)
    requires OneStatePerApp(states) && create.appId == appId
    ensures OneStatePerApp(StatesAfterUpsert(states, appId, update, create, now).0)
    ensures |states| <= |StatesAfterUpsert(states, appId, update, create, now).0| <= |states| + 1
    ensures StateIndex(StatesAfterUpsert(states, appId, update, create, now).0, appId).Some?
  {
    var r := StatesAfterUpsert(states, appId, update, create, now).0;
    var index := StateIndex(states, appId);
    if index.None? {
      assert r[|states|].appId == appId;
      assert forall i :: 0 <= i < |states| ==> r[i] == states[i];
    } else {
      assert forall i :: 0 <= i < |states| ==> r[i].appId == states[i].appId;
    }
  }

  /** The same for settings. */
  lemma UpsertKeepsOneSettingsPerApp(settings: seq<Settings>, appId: string, update: SettingsChanges,
                                     create: SettingsCreate, now: Timestamp)
    requires OneSettingsPerApp(settings) && create.appId == appId
    ensures OneSettingsPerApp(SettingsAfterUpsert(settings, appId, update, create, now).0)
    ensures |settings| <= |SettingsAfterUpsert(settings, appId, update, create, now).0| <= |settings| + 1
  {
    var r := SettingsAfterUpsert(settings, appId, update, create, now).0;
    if SettingsIndex(settings, appId).None? {
      assert r[|settings|].appId == appId;
      assert forall i :: 0 <= i < |settings| ==> r[i] == settings[i];
    } else {
      assert forall i :: 0 <= i < |settings| ==> r[i].appId == settings[i].appId;
    }
  }

  /** A `create` whose `appId` differs from the `where.appId` inserts a second state for an
      app that already has one: the double does not enforce uniqueness by itself. */
  lemma MismatchedUpsertDuplicates(s: ContainerState, update: StateChanges, create: StateCreate, now: Timestamp)
    requires s.appId != "b" && create.appId == s.appId
    ensures !OneStatePerApp(StatesAfterUpsert([s], "b", update, create, now).0)
  {
    var r := StatesAfterUpsert([s], "b", update, create, now).0;
    assert StateIndex([s], "b").None? by { assert !(s.appId == "b"); }
    assert r[0].appId == r[1].appId;
  }

  /** After an upsert, a lookup by the app finds exactly what the upsert returned. */
  lemma UpsertThenFind(states: seq<ContainerState>, appId: string, update: StateChanges,
                       create: StateCreate, now: Timestamp)
    requires OneStatePerApp(states) && create.appId == appId
    ensures var (after, written) := StatesAfterUpsert(states, appId, update, create, now);
            Find(after, (s: ContainerState) => s.appId == appId) == Some(written)
  {
    UpsertKeepsOneStatePerApp(states, appId, update, create, now);
    var (after, written) := StatesAfterUpsert(states, appId, update, create, now);
    var i := StateIndex(after, appId).value;
    if StateIndex(states, appId).None? {
      assert after[|states|] == written;
      assert i == |states|;
    } else {
      var k := StateIndex(states, appId).value;
      assert after[k] == written;
      assert i == k;
    }
  }

  /** `app.create` of a record whose id is new makes it the one a lookup by that id finds. */
  lemma CreateThenFindById(apps: seq<AppRecord>, data: AppCreate, now: Timestamp)
    requires forall a :: a in apps ==> a.id != NewAppRecord(data, |apps|, now).id
    ensures var r := NewAppRecord(data, |apps|, now);
            FindApp(apps + [r], [(Id, FText(r.id))]) == Some(r)
  {
    var r := NewAppRecord(data, |apps|, now);
    var s := apps + [r];
    assert FieldOf(s[|apps|], Id) == FText(r.id);
    var i := FirstIndex(s, (a: AppRecord) => FieldOf(a, Id) == FText(r.id)).value;
    assert i == |apps|;
  }

  /** Two tests that agree on every element have the same first match. */
  lemma FirstIndexOfEquivalent<T>(s: seq<T>, p: T -> bool, q: T -> bool)
    requires forall x :: p(x) == q(x)
    ensures FirstIndex(s, p) == FirstIndex(s, q)
  {
    var a, b := FirstIndex(s, p), FirstIndex(s, q);
    if a.Some? && b.Some? {
      assert !(a.value < b.value) by { assert q(s[a.value]); }
      assert !(b.value < a.value) by { assert p(s[b.value]); }
    }
  }

  /** A lookup by id finds the record at the index `app.update` writes. */
  lemma FindByIdIsAppIndex(apps: seq<AppRecord>, id: string)
    ensures FindApp(apps, [(Id, FText(id))]).Some? <==> AppIndex(apps, id).Some?
    ensures AppIndex(apps, id).Some? ==> FindApp(apps, [(Id, FText(id))]) == Some(apps[AppIndex(apps, id).value])
  {
    FirstIndexOfEquivalent(apps, (a: AppRecord) => FieldOf(a, Id) == FText(id), (a: AppRecord) => a.id == id);
  }

  /** After an update of the record at `AppIndex`, the same id still finds it there. */
  lemma AppIndexAfterUpdate(apps: seq<AppRecord>, id: string, changes: AppChanges, now: Timestamp)
    requires AppIndex(apps, id).Some?
    ensures var i := AppIndex(apps, id).value;
            AppIndex(apps[i := ApplyAppChanges(apps[i], changes, now)], id) == Some(i)
  {
    var i := AppIndex(apps, id).value;
    var after := apps[i := ApplyAppChanges(apps[i], changes, now)];
    var k := AppIndex(after, id);
    assert after[i].id == id;
    if k.Some? {
      assert !(k.value < i) by { assert after[k.value] == apps[k.value] || k.value == i; }
    }
  }

  /** Reading an app back by id after `app.update` gives the updated record. */
  lemma UpdateThenFind(apps: seq<AppRecord>, id: string, changes: AppChanges, now: Timestamp)
    requires AppIndex(apps, id).Some?
    ensures var after := AppsAfterUpdate(apps, id, changes, now);
            after.1.Ok? && FindApp(after.0, [(Id, FText(id))]) == Some(after.1.value)
  {
    AppIndexAfterUpdate(apps, id, changes, now);
    FindByIdIsAppIndex(AppsAfterUpdate(apps, id, changes, now).0, id);
  }

  /** The default ids count the collection, so a seeded `app_2` collides with the next default id. */
  lemma DefaultAppIdCanCollide(seeded: AppRecord, data: AppCreate, now: Timestamp)
    requires seeded.id == "app_2" && data.id.None?
    ensures NewAppRecord(data, |[seeded]|, now).id == seeded.id
  {
    assert NatToString(2) == "2";
  }

  // ---------------------------------------------------------------- the double

  class PrismaDouble {
    var apps: seq<AppRecord>
    var templates: seq<Template>
    var containerStates: seq<ContainerState>
    var appSettings: seq<Settings>

    /** `createPrismaDouble`: copies of the seed collections. */
    constructor(apps: seq<AppRecord>, templates: seq<Template>, containerStates: seq<ContainerState>,
                appSettings: seq<Settings>)
      ensures this.apps == apps && this.templates == templates
      ensures this.containerStates == containerStates && this.appSettings == appSettings
    {
      this.apps := apps;
      this.templates := templates;
      this.containerStates := containerStates;
      this.appSettings := appSettings;
    }

    /** `cloneApp`: a copy of the record, with its container states and its first settings
        record attached when `include` asks for them. */
    function CloneApp(app: AppRecord, relations: Include): (r: AppView)
      reads this
      ensures r.record == app
      ensures relations.containerStates <==> r.containerStates.Included?
      ensures relations.settings <==> r.settings.Included?
      ensures r.containerStates.Included? ==> r.containerStates.value == StatesOf(containerStates, app.id)
      ensures r.containerStates.Included? ==>
                (forall s :: s in r.containerStates.value <==> s in containerStates && s.appId == app.id)
      ensures r.settings.Included? && r.settings.value.Some? ==>
                exists i :: 0 <= i < |appSettings| && appSettings[i] == r.settings.value.value
                            && appSettings[i].appId == app.id
                            && forall j :: 0 <= j < i ==> appSettings[j].appId != app.id
      ensures r.settings.Included? && r.settings.value.None? ==>
                forall s :: s in appSettings ==> s.appId != app.id
    {
      AppView(
        app,
        if relations.containerStates then Included(StatesOf(containerStates, app.id)) else NotIncluded,
        if relations.settings then Included(Find(appSettings, (s: Settings) => s.appId == app.id)) else NotIncluded)
    }

    /** `app.findUnique` without `select`. */
    function FindUniqueApp(where: seq<Condition>, relations: Include): (r: Option<AppView>)
      reads this
      ensures where == [] ==> r.None?
      ensures r.Some? ==> r.value == CloneApp(r.value.record, relations)
                          && exists i :: 0 <= i < |apps| && apps[i] == r.value.record
                                         && FieldOf(apps[i], where[0].0) == where[0].1
                                         && forall j :: 0 <= j < i ==> FieldOf(apps[j], where[0].0) != where[0].1
      ensures where != [] && r.None? ==> forall a :: a in apps ==> FieldOf(a, where[0].0) != where[0].1
    {
      var found := FindApp(apps, where);
      if found.Some? then Some(CloneApp(found.value, relations)) else None
    }

    /** `app.findUnique` with `select`: only the enabled keys of the matching record. */
    function FindUniqueAppSelect(where: seq<Condition>, select: set<AppField>): (r: Option<map<AppField, FieldValue>>)
      reads this
      ensures r.Some? <==> FindApp(apps, where).Some?
      ensures r.Some? ==> r.value.Keys == select
                          && forall f :: f in select ==> r.value[f] == FieldOf(FindApp(apps, where).value, f)
    {
      var found := FindApp(apps, where);
      if found.Some? then Some(Selected(found.value, select)) else None
    }

    /** `app.findMany`: every app, in store order. */
    function FindManyApps(relations: Include): (r: seq<AppView>)
      reads this
      ensures |r| == |apps|
      ensures forall i :: 0 <= i < |r| ==> r[i].record == apps[i] && r[i] == CloneApp(apps[i], relations)
    {
      seq(|apps|, i requires 0 <= i < |apps| reads this => CloneApp(apps[i], relations))
    }

    /** `marketplaceTemplate.findUnique`. */
    function FindUniqueTemplate(where: TemplateWhere): (r: Option<Template>)
      reads this
      ensures r.Some? ==> r.value in templates
      ensures r == FindTemplate(templates, where)
    {
      FindTemplate(templates, where)
    }

    /** `app.create`: appends exactly one record. */
    method CreateApp(data: AppCreate, now: Timestamp) returns (record: AppRecord)
      modifies this
      ensures record == NewAppRecord(data, |old(apps)|, now)
      ensures apps == old(apps) + [record]
      ensures templates == old(templates) && containerStates == old(containerStates) && appSettings == old(appSettings)
    {
      record := NewAppRecord(data, |apps|, now);
      apps := apps + [record];
    }

    /** `app.update`: the first app with that id gets the supplied keys and a new `updatedAt`. */
    method UpdateApp(id: string, changes: AppChanges, now: Timestamp) returns (r: Result<AppRecord, AppError>)
      modifies this
      ensures (apps, r) == AppsAfterUpdate(old(apps), id, changes, now)
      ensures templates == old(templates) && containerStates == old(containerStates) && appSettings == old(appSettings)
    {
      var index := AppIndex(apps, id);
      if index.None? {
        return Err(PlainError(AppNotFoundMessage(id)));
      }
      var updated := ApplyAppChanges(apps[index.value], changes, now);
      apps := apps[index.value := updated];
      r := Ok(updated);
    }

    /** `appSettings.upsert`. */
    method UpsertAppSettings(appId: string, update: SettingsChanges, create: SettingsCreate, now: Timestamp)
      returns (record: Settings)
      modifies this
      ensures (appSettings, record) == SettingsAfterUpsert(old(appSettings), appId, update, create, now)
      ensures apps == old(apps) && templates == old(templates) && containerStates == old(containerStates)
    {
      var index := SettingsIndex(appSettings, appId);
      if index.None? {
        record := NewSettings(create, |appSettings|, now);
        appSettings := appSettings + [record];
      } else {
        record := ApplySettingsChanges(appSettings[index.value], update, now);
        appSettings := appSettings[index.value := record];
      }
    }

    /** `dockerContainerState.upsert`. */
    method UpsertContainerState(appId: string, update: StateChanges, create: StateCreate, now: Timestamp)
      returns (record: ContainerState)
      modifies this
      ensures (containerStates, record) == StatesAfterUpsert(old(containerStates), appId, update, create, now)
      ensures apps == old(apps) && templates == old(templates) && appSettings == old(appSettings)
    {
      var index := StateIndex(containerStates, appId);
      if index.None? {
        record := NewState(create, |containerStates|, now);
        containerStates := containerStates + [record];
      } else {
        record := ApplyStateChanges(containerStates[index.value], update, now);
        containerStates := containerStates[index.value := record];
      }
    }

    /** `dockerContainerState.update`. */
    method UpdateContainerState(appId: string, changes: StateChanges, now: Timestamp)
      returns (r: Result<ContainerState, AppError>)
      modifies this
      ensures (containerStates, r) == StatesAfterUpdate(old(containerStates), appId, changes, now)
      ensures apps == old(apps) && templates == old(templates) && appSettings == old(appSettings)
    {
      var index := StateIndex(containerStates, appId);
      if index.None? {
        return Err(PlainError(StateNotFoundMessage(appId)));
      }
      var updated := ApplyStateChanges(containerStates[index.value], changes, now);
      containerStates := containerStates[index.value := updated];
      r := Ok(updated);
    }

    /** `dockerContainerState.delete`: splices out the first match. */
    method DeleteContainerState(where: StateWhere) returns (r: Result<ContainerState, AppError>)
      modifies this
      ensures (containerStates, r) == StatesAfterDelete(old(containerStates), where)
      ensures apps == old(apps) && templates == old(templates) && appSettings == old(appSettings)
    {
      var index := FirstIndex(containerStates, (s: ContainerState) => DeleteMatches(where, s));
      if index.None? {
        return Err(PlainError(StateMissingMessage));
      }
      var i := index.value;
      r := Ok(containerStates[i]);
      containerStates := containerStates[..i] + containerStates[i + 1..];
    }
  }
}
