/** The Docker orchestrator: the telemetry cycle run against the store and the command runner,
    the polling switch, and the base-URL update. Each method is specified by the functions of
    the telemetry module. */
module Orchestrator {
  import opened Wrappers
  import opened JsText
  import opened JsValues
  import opened Errors
  import opened Records
  import opened Persistence
  import opened Effects
  import opened Telemetry

  /** `mapStatsByContainerName`: the loop that keys each stats entry by its truthy `Name`. */
  method MapStatsByContainerName(statsOutput: string, parse: JsonParser) returns (r: Result<EntryMap, AppError>)
    ensures r == StatsOf(statsOutput, parse)
  {
    if statsOutput == "" {
      return Ok(map[]);
    }
    var entries :- ParseJsonLines(statsOutput, parse);
    var m: EntryMap := map[];
    var i := 0;
    while i < |entries|
      invariant 0 <= i <= |entries|
      invariant IndexInto(m, entries[i..], "Name", true) == IndexInto(map[], entries, "Name", true)
    {
      var entry := entries[i];
      assert entries[i..][0] == entry && entries[i..][1..] == entries[i + 1..];
      var name :- Prop(entry, "Name");
      if Truthy(name) {
        m := m[name := entry];
      }
      i := i + 1;
    }
    return Ok(m);
  }

  const PrismaRequiredMessage := "Prisma client instance is required."

  class DockerOrchestrator {
    const store: PrismaDouble
    const runner: CommandRunner
    const parse: JsonParser
    const pollIntervalMs: int
    /** Whether the polling timer is armed. */
    var timerActive: bool

    /** An unset poll interval is the default of five seconds. */
    constructor(store: PrismaDouble, runner: CommandRunner, parse: JsonParser, pollIntervalMs: Option<int>)
      ensures this.store == store && this.runner == runner && this.parse == parse
      ensures this.pollIntervalMs == (if pollIntervalMs.Some? then pollIntervalMs.value else DefaultPollIntervalMs)
      ensures !timerActive
    {
      this.store := store;
      this.runner := runner;
      this.parse := parse;
      this.pollIntervalMs := if pollIntervalMs.Some? then pollIntervalMs.value else DefaultPollIntervalMs;
      timerActive := false;
    }

    /** `collectStats`: one `docker stats` call; its failure leaves an empty map. */
    method CollectStats() returns (stats: EntryMap)
      modifies runner
      ensures runner.calls == old(runner.calls) + [StatsCall]
      ensures stats == CollectedStats(runner.respond(StatsCall), parse)
    {
      var reply := runner.Run(StatsCall);
      if reply.Err? {
        return map[];
      }
      var mapped := MapStatsByContainerName(reply.value, parse);
      stats := if mapped.Err? then map[] else mapped.value;
    }

    /** One iteration of `collectTelemetry`'s loop, as `Step` specifies it: `log` and `results`
        are the calls and the results of the cycle so far. */
    method ReconcileApp(view: AppView, c: Cycle, ghost log: seq<Invocation>, ghost results: seq<TelemetryResult>)
      returns (r: Result<TelemetryResult, AppError>)
      requires c.respond == runner.respond && c.parse == parse
      modifies store, runner
      ensures runner.calls == old(runner.calls) + ObservedCalls(view, c)
      ensures Step(Progress(old(store.apps), old(store.containerStates), results, log, None), view, c)
              == Progress(store.apps, store.containerStates, if r.Ok? then results + [r.value] else results,
                          log + ObservedCalls(view, c), if r.Err? then Some(r.error) else None)
      ensures store.templates == old(store.templates) && store.appSettings == old(store.appSettings)
    {
      var containerName :- ContainerName(view.record);
      var id := view.record.id;
      var ps := PsSummary(c.containers, containerName);
      if ps.None? {
        var snapshot := MissingSnapshot(view, containerName, c.now);
        var _ := store.UpsertContainerState(id, StateChanges(Set(snapshot), None), StateCreate(None, id, snapshot, None, None), c.now);
        var updated := store.UpdateApp(id, AppChanges(Set(FAILED), Keep, Keep, Keep, None), c.now);
        if updated.Err? {
          return Err(updated.error);
        }
        return Ok(TelemetryResult(id, containerName, Missing, None, None, JsNull));
      }
      var summary := ps.value;
      var reply := runner.Run(InspectCall(Get(summary, "ID")));
      var inspect := InspectData(reply, parse);
      var status := ResolveStatus(inspect, summary);
      var health :- ResolveHealth(inspect, summary);
      var metrics :- MetricsFor(c.stats, Get(summary, "Names"));
      var state := Coalesce(Get(inspect, "State"), JsNull);
      var snapshot := Snapshot(Coalesce(Get(inspect, "Id"), Get(summary, "ID")), containerName, status, health, state, metrics, c.now);
      var _ := store.UpsertContainerState(id, StateChanges(Set(snapshot), None), StateCreate(None, id, snapshot, None, None), c.now);
      if status == JsString("RUNNING") {
        var updated := store.UpdateApp(id, AppChanges(Set(RUNNING), Keep, Set(Some(c.now)), Keep, None), c.now);
        if updated.Err? {
          return Err(updated.error);
        }
      } else if status == JsString("EXITED") || status == Missing {
        var updated := store.UpdateApp(id, AppChanges(Set(if status == JsString("EXITED") then STOPPED else FAILED), Keep, Keep, Keep, None), c.now);
        if updated.Err? {
          return Err(updated.error);
        }
      }
      r := Ok(TelemetryResult(id, containerName, status, health, metrics, state));
    }

    /** The first iteration of the loop over `views`: what is left of the loop afterwards
        is the loop over the rest from the new state. */
    method ReconcileNext(views: seq<AppView>, c: Cycle, ghost log: seq<Invocation>, ghost results: seq<TelemetryResult>)
      returns (r: Result<TelemetryResult, AppError>)
      requires views != []
      requires c.respond == runner.respond && c.parse == parse
      modifies store, runner
      ensures runner.calls == old(runner.calls) + ObservedCalls(views[0], c)
      ensures Reconciled(Progress(old(store.apps), old(store.containerStates), results, log, None), views, c)
              == Reconciled(Progress(store.apps, store.containerStates, if r.Ok? then results + [r.value] else results,
                                     log + ObservedCalls(views[0], c), if r.Err? then Some(r.error) else None), views[1..], c)
      ensures store.templates == old(store.templates) && store.appSettings == old(store.appSettings)
    {
      ReconciledUnfold(Progress(store.apps, store.containerStates, results, log, None), views, c);
      r := ReconcileApp(views[0], c, log, results);
    }

    /** The loop of `collectTelemetry` over the listed apps, as `Reconciled` specifies it; the
        runner's log so far ends in `log`. */
    method ReconcileAll(views: seq<AppView>, c: Cycle, ghost prefix: seq<Invocation>, ghost log: seq<Invocation>)
      returns (r: Result<seq<TelemetryResult>, AppError>)
      requires c.respond == runner.respond && c.parse == parse
      requires runner.calls == prefix + log
      modifies store, runner
      ensures var q := Reconciled(Progress(old(store.apps), old(store.containerStates), [], log, None), views, c);
              store.apps == q.apps && store.containerStates == q.states && runner.calls == prefix + q.calls
              && r == Settle(q)
      ensures store.templates == old(store.templates) && store.appSettings == old(store.appSettings)
    {
      ghost var final := Reconciled(Progress(store.apps, store.containerStates, [], log, None), views, c);
      ghost var done := log;
      var results := [];
      var i := 0;
      while i < |views|
        invariant 0 <= i <= |views|
        invariant runner.calls == prefix + done
        invariant Reconciled(Progress(store.apps, store.containerStates, results, done, None), views[i..], c) == final
        invariant store.templates == old(store.templates) && store.appSettings == old(store.appSettings)
      {
        var step := ReconcileNext(views[i..], c, done, results);
        assert views[i..][1..] == views[i + 1..];
        done := done + ObservedCalls(views[i], c);
        if step.Err? {
          FailureSticks(Progress(store.apps, store.containerStates, results, done, Some(step.error)), views[i + 1..], c);
          return Err(step.error);
        }
        results := results + [step.value];
        i := i + 1;
      }
      r := Ok(results);
    }

    /** `collectTelemetry`: the store and the runner's log end as `TelemetryCycle` says, over
        the apps (with their container states and settings) as they were when the cycle began. */
    method CollectTelemetry(now: Timestamp) returns (r: Result<seq<TelemetryResult>, AppError>)
      modifies store, runner
      ensures var o := TelemetryCycle(old(store.FindManyApps(Include(true, true))), old(store.apps), old(store.containerStates),
                                      runner.respond, parse, now);
              store.apps == o.apps && store.containerStates == o.states && runner.calls == old(runner.calls) + o.calls
              && r == o.result
      ensures store.templates == old(store.templates) && store.appSettings == old(store.appSettings)
    {
      var views := store.FindManyApps(Include(true, true));
      if |views| == 0 {
        return Ok([]);
      }
      var ps := runner.Run(PsCall);
      if ps.Err? {
        return Ok([]);
      }
      var stats := CollectStats();
      var psEntries :- ParseJsonLines(ps.value, parse);
      var containers :- IndexInto(map[], psEntries, "Names", false);
      var c := Cycle(containers, stats, runner.respond, parse, now);
      assert TelemetryCycle(views, store.apps, store.containerStates, runner.respond, parse, now)
             == var q := Reconciled(LoopStart(store.apps, store.containerStates), views, c); Outcome(q.apps, q.states, q.calls, Settle(q));
      r := ReconcileAll(views, c, old(runner.calls), [PsCall, StatsCall]);
    }

    /** `start`: when the timer is not armed, one collection with its failure caught, then the
        timer is armed; when it is, nothing happens. */
    method Start(now: Timestamp)
      modifies this, store, runner
      ensures timerActive
      ensures old(timerActive) ==> store.apps == old(store.apps) && store.containerStates == old(store.containerStates)
                                   && runner.calls == old(runner.calls)
      ensures !old(timerActive) ==>
                var o := TelemetryCycle(old(store.FindManyApps(Include(true, true))), old(store.apps), old(store.containerStates),
                                        runner.respond, parse, now);
                store.apps == o.apps && store.containerStates == o.states && runner.calls == old(runner.calls) + o.calls
      ensures store.templates == old(store.templates) && store.appSettings == old(store.appSettings)
    {
      if timerActive {
        return;
      }
      var _ := CollectTelemetry(now);
      timerActive := true;
    }

    /** `stop`: disarms the timer; stopping a stopped orchestrator changes nothing. */
    method Stop()
      modifies this
      ensures !timerActive
    {
      if !timerActive {
        return;
      }
      timerActive := false;
    }

    /** `updateOpenAppBaseUrl`: the sanitized base URL is written to the app and upserted into
        its settings, and the app's id, name, base URL and port are read back. */
    method UpdateOpenAppBaseUrl(appId: string, openAppBaseUrl: JsValue, now: Timestamp)
      returns (r: Result<Option<map<AppField, FieldValue>>, AppError>)
      modifies store
      ensures appId == "" ==> r == Err(PlainError(AppIdRequiredMessage)) && store.apps == old(store.apps)
                              && store.appSettings == old(store.appSettings)
      ensures appId != "" && SanitizeBaseUrl(openAppBaseUrl).Err? ==>
                r == Err(SanitizeBaseUrl(openAppBaseUrl).error) && store.apps == old(store.apps)
                && store.appSettings == old(store.appSettings)
      ensures appId != "" && SanitizeBaseUrl(openAppBaseUrl).Ok? && old(AppIndex(store.apps, appId)).None? ==>
                r == Err(PlainError(AppNotFoundMessage(appId))) && store.apps == old(store.apps)
                && store.appSettings == old(store.appSettings)
      ensures appId != "" && SanitizeBaseUrl(openAppBaseUrl).Ok? && old(AppIndex(store.apps, appId)).Some? ==>
                var sanitized := SanitizeBaseUrl(openAppBaseUrl).value;
                store.apps == AppsAfterUpdate(old(store.apps), appId, AppChanges(Keep, Keep, Keep, Set(sanitized), None), now).0
                && store.appSettings == SettingsAfterUpsert(old(store.appSettings), appId, SettingsChanges(Set(sanitized), None),
                                                            SettingsCreate(None, appId, sanitized, None, None), now).0
                && r.Ok? && r.value.Some? && r.value.value.Keys == LinkFields
                && r.value.value[OpenAppBaseUrl] == TextOrNull(sanitized) && r.value.value[Id] == FText(appId)
                && AppIndex(store.apps, appId) == AppIndex(old(store.apps), appId)
                && r.value.value == Selected(store.apps[AppIndex(old(store.apps), appId).value], LinkFields)
      ensures store.templates == old(store.templates) && store.containerStates == old(store.containerStates)
    {
      if appId == "" {
        return Err(PlainError(AppIdRequiredMessage));
      }
      var sanitized :- SanitizeBaseUrl(openAppBaseUrl);
      r := StoreBaseUrl(appId, sanitized, now);
    }

    /** The writes of `updateOpenAppBaseUrl` once the value is sanitized: the app's update
        fails for an unknown id before the settings are touched. */
    method StoreBaseUrl(appId: string, sanitized: Option<string>, now: Timestamp)
      returns (r: Result<Option<map<AppField, FieldValue>>, AppError>)
      modifies store
      ensures AppIndex(old(store.apps), appId).None? ==>
                r == Err(PlainError(AppNotFoundMessage(appId))) && store.apps == old(store.apps)
                && store.appSettings == old(store.appSettings)
      ensures AppIndex(old(store.apps), appId).Some? ==>
                store.apps == AppsAfterUpdate(old(store.apps), appId, AppChanges(Keep, Keep, Keep, Set(sanitized), None), now).0
                && store.appSettings == SettingsAfterUpsert(old(store.appSettings), appId, SettingsChanges(Set(sanitized), None),
                                                            SettingsCreate(None, appId, sanitized, None, None), now).0
                && r.Ok? && r.value.Some? && r.value.value.Keys == LinkFields
                && r.value.value[OpenAppBaseUrl] == TextOrNull(sanitized) && r.value.value[Id] == FText(appId)
                && AppIndex(store.apps, appId) == AppIndex(old(store.apps), appId)
                && r.value.value == Selected(store.apps[AppIndex(old(store.apps), appId).value], LinkFields)
      ensures store.templates == old(store.templates) && store.containerStates == old(store.containerStates)
    {
      var changes := AppChanges(Keep, Keep, Keep, Set(sanitized), None);
      var updated := store.UpdateApp(appId, changes, now);
      if updated.Err? {
        return Err(updated.error);
      }
      UpdateThenFind(old(store.apps), appId, changes, now);
      AppIndexAfterUpdate(old(store.apps), appId, changes, now);
      ghost var record := updated.value;
      assert record.openAppBaseUrl == sanitized && record.id == appId;
      assert FindApp(store.apps, [(Id, FText(appId))]) == Some(record);
      var _ := store.UpsertAppSettings(appId, SettingsChanges(Set(sanitized), None), SettingsCreate(None, appId, sanitized, None, None), now);
      var selected := store.FindUniqueAppSelect([(Id, FText(appId))], LinkFields);
      assert selected == Some(Selected(record, LinkFields));
      r := Ok(selected);
    }
  }

  /** `createDockerOrchestrator`: a missing store is refused. */
  method CreateDockerOrchestrator(store: PrismaDouble?, runner: CommandRunner, parse: JsonParser, pollIntervalMs: Option<int>)
    returns (r: Result<DockerOrchestrator, AppError>)
    ensures store == null ==> r == Err(PlainError(PrismaRequiredMessage))
    ensures store != null ==> r.Ok? && fresh(r.value) && r.value.store == store && r.value.runner == runner
                              && !r.value.timerActive
  {
    if store == null {
      return Err(PlainError(PrismaRequiredMessage));
    }
    var orchestrator := new DockerOrchestrator(store, runner, parse, pollIntervalMs);
    return Ok(orchestrator);
  }
}
