/** The computations behind the Docker orchestrator's telemetry cycle, as functions on values:
    reading the container tool's JSON-lines output, indexing its entries by container name,
    resolving status and health, the per-app observation, the fold over all apps that
    `collectTelemetry` performs, and the open-app link. The orchestrator class runs them
    against the store and the command runner. */
module Telemetry {
  import opened Wrappers
  import opened JsText
  import opened JsValues
  import opened Errors
  import opened Records
  import opened Persistence
  import opened Effects
  import Validation
  import AppLifecycle

  /** `JSON.parse`, injected: `None` for text that is not JSON. */
  type JsonParser = string -> Option<JsValue>

  const DefaultPollIntervalMs := 5000

  // ---------------------------------------------------------------- JSON lines

  /** `lines.map((line) => line.trim()).filter(Boolean)`. */
  function NonBlank(lines: seq<string>): (r: seq<string>)
    ensures |r| <= |lines|
    ensures forall i :: 0 <= i < |r| ==> r[i] != "" && !IsJsWhitespace(r[i][0]) && !IsJsWhitespace(r[i][|r[i]| - 1])
  {
    if lines == [] then []
    else
      var t := Trim(lines[0]);
      var rest := NonBlank(lines[1..]);
      if t == "" then rest else [t] + rest
  }

  /** The lines `parseJsonLines` hands to `JSON.parse`. */
  function JsonLines(output: string): seq<string> {
    NonBlank(SplitOn(output, '\n'))
  }

  /** Filtering works line by line. */
  lemma {:induction false} NonBlankConcat(a: seq<string>, b: seq<string>)
    ensures NonBlank(a + b) == NonBlank(a) + NonBlank(b)
  {
    if a == [] {
      assert a + b == b;
    } else {
      assert (a + b)[0] == a[0] && (a + b)[1..] == a[1..] + b;
      NonBlankConcat(a[1..], b);
    }
  }

  /** A blank line contributes nothing to the parsed entries. */
  lemma BlankLineSkipped(line: string, rest: string)
    requires '\n' !in line && Trim(line) == ""
    ensures JsonLines(line + "\n" + rest) == JsonLines(rest)
  {
    SplitOnPiece(line, '\n', rest);
    NonBlankConcat([line], SplitOn(rest, '\n'));
  }

  /** A line with content contributes its trimmed text, in order. */
  lemma FirstLineKept(line: string, rest: string)
    requires '\n' !in line && Trim(line) != ""
    ensures JsonLines(line + "\n" + rest) == [Trim(line)] + JsonLines(rest)
  {
    SplitOnPiece(line, '\n', rest);
    NonBlankConcat([line], SplitOn(rest, '\n'));
  }

  /** Every piece of a split consists of characters of the split text. */
  lemma {:induction false} SplitPiecesFromText(s: string, c: char)
    ensures forall k, j :: 0 <= k < |SplitOn(s, c)| && 0 <= j < |SplitOn(s, c)[k]| ==> SplitOn(s, c)[k][j] in s
  {
    if s != [] {
      SplitPiecesFromText(s[1..], c);
      var tail := SplitOn(s[1..], c);
      assert forall x :: x in s[1..] ==> x in s;
      if s[0] != c {
        var r := SplitOn(s, c);
        assert forall k :: 1 <= k < |r| ==> r[k] == tail[k];
        assert r[0] == [s[0]] + tail[0];
      }
    }
  }

  lemma {:induction false} NonBlankOfBlank(lines: seq<string>)
    requires forall k :: 0 <= k < |lines| ==> Trim(lines[k]) == ""
    ensures NonBlank(lines) == []
  {
    if lines != [] {
      NonBlankOfBlank(lines[1..]);
    }
  }

  /** Output made only of whitespace and newlines (in particular the empty output) has no
      lines to parse. */
  lemma WhitespaceOutputHasNoLines(output: string)
    requires forall i :: 0 <= i < |output| ==> IsJsWhitespace(output[i])
    ensures JsonLines(output) == []
  {
    var pieces := SplitOn(output, '\n');
    SplitPiecesFromText(output, '\n');
    forall k | 0 <= k < |pieces|
      ensures Trim(pieces[k]) == ""
    {
      assert forall j :: 0 <= j < |pieces[k]| ==> pieces[k][j] in output;
      AllWhitespaceTrimsToEmpty(pieces[k]);
    }
    NonBlankOfBlank(pieces);
  }

  /** `JSON.parse` of each line in turn; the first line that does not parse is the error. */
  function ParseEach(lines: seq<string>, parse: JsonParser): (r: Result<seq<JsValue>, AppError>)
    ensures r.Ok? <==> forall i :: 0 <= i < |lines| ==> parse(lines[i]).Some?
    ensures r.Ok? ==> |r.value| == |lines| && forall i :: 0 <= i < |lines| ==> r.value[i] == parse(lines[i]).value
    ensures r.Err? ==> exists i :: 0 <= i < |lines| && parse(lines[i]).None? && r.error == JsonLineError(lines[i])
                                   && forall j :: 0 <= j < i ==> parse(lines[j]).Some?
  {
    if lines == [] then Ok([])
    else
      match parse(lines[0])
      case None => Err(JsonLineError(lines[0]))
      case Some(v) =>
        var rest := ParseEach(lines[1..], parse);
        assert forall i :: 1 <= i < |lines| ==> lines[i] == lines[1..][i - 1];
        if rest.Err? then
          ghost var i :| 0 <= i < |lines[1..]| && parse(lines[1..][i]).None? && rest.error == JsonLineError(lines[1..][i])
                         && forall j :: 0 <= j < i ==> parse(lines[1..][j]).Some?;
          assert parse(lines[i + 1]).None?;
          Err(rest.error)
        else Ok([v] + rest.value)
  }

  /** `parseJsonLines`. */
  function ParseJsonLines(output: string, parse: JsonParser): Result<seq<JsValue>, AppError> {
    ParseEach(JsonLines(output), parse)
  }

  // ---------------------------------------------------------------- indexing by name

  /** The message of the `TypeError` that reading a property of `null`/`undefined` raises. */
  function PropertyReadMessage(v: JsValue, key: string): string {
    "Cannot read properties of " + (if v.JsNull? then "null" else "undefined") + " (reading '" + key + "')"
  }

  /** `v.key` without optional chaining: it throws on `null` and `undefined`. */
  function Prop(v: JsValue, key: string): (r: Result<JsValue, AppError>)
    ensures r.Err? <==> IsNullish(v)
    ensures r.Ok? ==> r.value == Get(v, key)
  {
    if IsNullish(v) then Err(PlainError(PropertyReadMessage(v, key))) else Ok(Get(v, key))
  }

  /** A `Map` from container-name values to the entries that carry them. */
  type EntryMap = map<JsValue, JsValue>

  /** Whether an entry is stored: with `onlyTruthy`, only when its key property is truthy. */
  predicate Keyed(entry: JsValue, key: string, onlyTruthy: bool) {
    !onlyTruthy || Truthy(Get(entry, key))
  }

  /** Sets each entry under its `key` property, in order, so a later entry replaces an earlier
      one with the same key. `mapStatsByContainerName` skips entries whose `Name` is falsy;
      `new Map(entries.map((e) => [e.Names, e]))` keeps them all. */
  function IndexInto(m: EntryMap, entries: seq<JsValue>, key: string, onlyTruthy: bool): (r: Result<EntryMap, AppError>)
    ensures r.Err? <==> exists i :: 0 <= i < |entries| && IsNullish(entries[i])
    decreases |entries|
  {
    if entries == [] then Ok(m)
    else
      assert forall i :: 1 <= i < |entries| ==> entries[i] == entries[1..][i - 1];
      var k :- Prop(entries[0], key);
      IndexInto(if Keyed(entries[0], key, onlyTruthy) then m[k := entries[0]] else m, entries[1..], key, onlyTruthy)
  }

  /** The keys of the index: those already present and the key of every stored entry. */
  lemma {:induction false} IndexKeys(m: EntryMap, entries: seq<JsValue>, key: string, onlyTruthy: bool)
    requires IndexInto(m, entries, key, onlyTruthy).Ok?
    ensures forall k :: k in IndexInto(m, entries, key, onlyTruthy).value <==>
              k in m || exists i :: 0 <= i < |entries| && Keyed(entries[i], key, onlyTruthy) && Get(entries[i], key) == k
    decreases |entries|
  {
    if entries != [] {
      var m' := if Keyed(entries[0], key, onlyTruthy) then m[Get(entries[0], key) := entries[0]] else m;
      IndexKeys(m', entries[1..], key, onlyTruthy);
      assert forall i :: 1 <= i < |entries| ==> entries[i] == entries[1..][i - 1];
    }
  }

  /** Each stored key points at the LAST stored entry carrying it; keys no entry carries keep
      their earlier value. */
  lemma {:induction false} IndexLastWins(m: EntryMap, entries: seq<JsValue>, key: string, onlyTruthy: bool, i: nat)
    requires IndexInto(m, entries, key, onlyTruthy).Ok?
    requires i < |entries| && Keyed(entries[i], key, onlyTruthy)
    requires forall j :: i < j < |entries| && Keyed(entries[j], key, onlyTruthy) ==> Get(entries[j], key) != Get(entries[i], key)
    ensures Get(entries[i], key) in IndexInto(m, entries, key, onlyTruthy).value
    ensures IndexInto(m, entries, key, onlyTruthy).value[Get(entries[i], key)] == entries[i]
    decreases |entries|
  {
    var m' := if Keyed(entries[0], key, onlyTruthy) then m[Get(entries[0], key) := entries[0]] else m;
    assert forall j :: 1 <= j < |entries| ==> entries[j] == entries[1..][j - 1];
    if i == 0 {
      IndexUntouched(m', entries[1..], key, onlyTruthy, Get(entries[0], key));
    } else {
      IndexLastWins(m', entries[1..], key, onlyTruthy, i - 1);
    }
  }

  /** A key that no later stored entry carries keeps its value. */
  lemma {:induction false} IndexUntouched(m: EntryMap, entries: seq<JsValue>, key: string, onlyTruthy: bool, k: JsValue)
    requires IndexInto(m, entries, key, onlyTruthy).Ok? && k in m
    requires forall j :: 0 <= j < |entries| && Keyed(entries[j], key, onlyTruthy) ==> Get(entries[j], key) != k
    ensures k in IndexInto(m, entries, key, onlyTruthy).value && IndexInto(m, entries, key, onlyTruthy).value[k] == m[k]
    decreases |entries|
  {
    if entries != [] {
      var m' := if Keyed(entries[0], key, onlyTruthy) then m[Get(entries[0], key) := entries[0]] else m;
      assert forall j :: 1 <= j < |entries| ==> entries[j] == entries[1..][j - 1];
      IndexUntouched(m', entries[1..], key, onlyTruthy, k);
    }
  }

  /** Every entry of the map sits under the value of its own `key` property. */
  predicate KeyedByOwnValue(m: EntryMap, key: string) {
    forall k :: k in m ==> Get(m[k], key) == k
  }

  /** The index keeps every entry under its own key value. */
  lemma {:induction false} IndexKeyedByOwnValue(m: EntryMap, entries: seq<JsValue>, key: string, onlyTruthy: bool)
    requires KeyedByOwnValue(m, key) && IndexInto(m, entries, key, onlyTruthy).Ok?
    ensures KeyedByOwnValue(IndexInto(m, entries, key, onlyTruthy).value, key)
    decreases |entries|
  {
    if entries != [] {
      var m' := if Keyed(entries[0], key, onlyTruthy) then m[Get(entries[0], key) := entries[0]] else m;
      IndexKeyedByOwnValue(m', entries[1..], key, onlyTruthy);
    }
  }

  /** The `docker ps` entry found under a container name carries that name in `Names`. */
  lemma ContainersCarryTheirNames(output: string, parse: JsonParser)
    requires ContainersOf(output, parse).Ok?
    ensures KeyedByOwnValue(ContainersOf(output, parse).value, "Names")
  {
    IndexKeyedByOwnValue(map[], ParseJsonLines(output, parse).value, "Names", false);
  }

  /** What `mapStatsByContainerName` returns, or throws: empty output is an empty map; otherwise
      the entries with a truthy `Name`, keyed by it. */
  function StatsOf(output: string, parse: JsonParser): Result<EntryMap, AppError> {
    if output == "" then Ok(map[])
    else
      var entries :- ParseJsonLines(output, parse);
      IndexInto(map[], entries, "Name", true)
  }

  /** Whitespace-only stats output is an empty map, like the empty output. */
  lemma BlankStatsOutputIsEmpty(output: string, parse: JsonParser)
    requires forall i :: 0 <= i < |output| ==> IsJsWhitespace(output[i])
    ensures StatsOf(output, parse) == Ok(map[])
  {
    WhitespaceOutputHasNoLines(output);
  }

  /** Every key of the stats map is the truthy `Name` of some entry, and every entry with a
      truthy `Name` is reachable under it (the last such entry wins). */
  lemma StatsKeysAreNames(output: string, parse: JsonParser)
    requires StatsOf(output, parse).Ok? && output != ""
    ensures var entries := ParseJsonLines(output, parse).value;
            forall k :: k in StatsOf(output, parse).value <==>
              Truthy(k) && exists i :: 0 <= i < |entries| && Get(entries[i], "Name") == k
  {
    var entries := ParseJsonLines(output, parse).value;
    IndexKeys(map[], entries, "Name", true);
  }

  /** `collectStats`: a failed `docker stats` call, or output that does not parse, leaves the
      cycle without metrics rather than failing it. */
  function CollectedStats(reply: Reply, parse: JsonParser): (r: EntryMap)
    ensures reply.Err? ==> r == map[]
    ensures reply.Ok? && StatsOf(reply.value, parse).Err? ==> r == map[]
    ensures reply.Ok? && StatsOf(reply.value, parse).Ok? ==> r == StatsOf(reply.value, parse).value
  {
    if reply.Err? then map[]
    else
      var stats := StatsOf(reply.value, parse);
      if stats.Err? then map[] else stats.value
  }

  /** The `docker ps` entries keyed by their `Names` value. */
  function ContainersOf(output: string, parse: JsonParser): Result<EntryMap, AppError> {
    var entries :- ParseJsonLines(output, parse);
    IndexInto(map[], entries, "Names", false)
  }

  // ---------------------------------------------------------------- status and health

  /** `toUpperSafe`: strings are upper-cased, `null`/`undefined` become `null`, anything else
      is returned as it is. */
  function ToUpperSafe(v: JsValue): (r: JsValue)
    ensures v.JsString? ==> r.JsString? && |r.s| == |v.s| && forall i :: 0 <= i < |v.s| ==> r.s[i] == UpperChar(v.s[i])
    ensures IsNullish(v) <==> r == JsNull
    ensures !v.JsString? && !IsNullish(v) ==> r == v
  {
    match v
    case JsString(s) => JsString(UpperCase(s))
    case JsUndefined => JsNull
    case JsNull => JsNull
    case _ => v
  }

  /** Upper-casing twice is upper-casing once. */
  lemma ToUpperSafeIdempotent(v: JsValue)
    ensures ToUpperSafe(ToUpperSafe(v)) == ToUpperSafe(v)
  {
    if v.JsString? {
      var once := ToUpperSafe(v).s;
      assert UpperCase(once) == once;
    }
  }

  /** `resolveContainerName`: `dcc-` and the stored slug, or the slug derived from the name
      (which throws when none can be derived). */
  function ContainerName(app: AppRecord): (r: Result<string, AppError>)
    ensures app.workspaceSlug.Some? ==> r == Ok("dcc-" + app.workspaceSlug.value)
    ensures app.workspaceSlug.None? && Validation.DeriveWorkspaceSlug(JsString(app.name)).Ok? ==>
              r == Ok("dcc-" + Validation.DeriveWorkspaceSlug(JsString(app.name)).value)
    ensures app.workspaceSlug.None? && Validation.DeriveWorkspaceSlug(JsString(app.name)).Err? ==>
              r == Err(Validation.DeriveWorkspaceSlug(JsString(app.name)).error)
  {
    var slug :- AppLifecycle.ComposeSlug(app);
    Ok(AppLifecycle.ContainerNameFor(slug))
  }

  /** The candidates `resolveStatus` tries, in order of precedence. */
  function StatusCandidates(inspect: JsValue, ps: JsValue): seq<JsValue> {
    [Get(Get(inspect, "State"), "Status"), Get(Get(inspect, "State"), "State"),
     Get(ps, "State"), Get(ps, "Status"), JsString("unknown")]
  }

  /** The first value that is neither null nor undefined (`a ?? b ?? ...`). */
  function FirstPresent(values: seq<JsValue>): (r: JsValue)
    ensures (exists i :: 0 <= i < |values| && !IsNullish(values[i])) ==> !IsNullish(r)
  {
    if values == [] then JsUndefined
    else if !IsNullish(values[0]) then values[0]
    else FirstPresent(values[1..])
  }

  /** `FirstPresent` picks the earliest present value. */
  lemma {:induction false} FirstPresentIsEarliest(values: seq<JsValue>, i: nat)
    requires i < |values| && !IsNullish(values[i]) && forall j :: 0 <= j < i ==> IsNullish(values[j])
    ensures FirstPresent(values) == values[i]
  {
    if i > 0 {
      FirstPresentIsEarliest(values[1..], i - 1);
    }
  }

  /** `resolveStatus`: the first candidate that is neither null nor undefined (the last one,
      `'unknown'`, always is), upper-cased. */
  function ResolveStatus(inspect: JsValue, ps: JsValue): (r: JsValue)
    ensures r == ToUpperSafe(FirstPresent(StatusCandidates(inspect, ps)))
    ensures !IsNullish(r)
  {
    var c := StatusCandidates(inspect, ps);
    var raw := Coalesce(c[0], Coalesce(c[1], Coalesce(c[2], Coalesce(c[3], c[4]))));
    CoalesceChainIsFirstPresent(c);
    ToUpperSafe(raw)
  }

  /** The five-way `??` chain of `resolveStatus` is `FirstPresent` of its operands. */
  lemma CoalesceChainIsFirstPresent(c: seq<JsValue>)
    requires |c| == 5 && !IsNullish(c[4])
    ensures Coalesce(c[0], Coalesce(c[1], Coalesce(c[2], Coalesce(c[3], c[4])))) == FirstPresent(c)
  {
    if !IsNullish(c[0]) {
      FirstPresentIsEarliest(c, 0);
    } else if !IsNullish(c[1]) {
      FirstPresentIsEarliest(c, 1);
    } else if !IsNullish(c[2]) {
      FirstPresentIsEarliest(c, 2);
    } else if !IsNullish(c[3]) {
      FirstPresentIsEarliest(c, 3);
    } else {
      FirstPresentIsEarliest(c, 4);
    }
  }

  /** The inspect data's `State.Status`, when present, decides the status whatever the
      `docker ps` summary says. */
  lemma InspectStatusWins(inspect: JsValue, ps: JsValue, other: JsValue)
    requires !IsNullish(Get(Get(inspect, "State"), "Status"))
    ensures ResolveStatus(inspect, ps) == ResolveStatus(inspect, other) == ToUpperSafe(Get(Get(inspect, "State"), "Status"))
  {
    FirstPresentIsEarliest(StatusCandidates(inspect, ps), 0);
    FirstPresentIsEarliest(StatusCandidates(inspect, other), 0);
  }

  /** With no inspect data and no state or status in the summary the status is `UNKNOWN`. */
  lemma StatusUnknownWithoutData(ps: JsValue)
    requires IsNullish(Get(ps, "State")) && IsNullish(Get(ps, "Status"))
    ensures ResolveStatus(JsNull, ps) == JsString("UNKNOWN")
  {
    FirstPresentIsEarliest(StatusCandidates(JsNull, ps), 4);
    assert UpperCase("unknown") == "UNKNOWN";
  }

  /** The raw health value: the inspect data's `State.Health.Status`, else the summary's `Health`. */
  function RawHealth(inspect: JsValue, ps: JsValue): JsValue {
    Coalesce(Get(Get(Get(inspect, "State"), "Health"), "Status"), Get(ps, "Health"))
  }

  /** `resolveHealth`: a truthy string is upper-cased, a falsy value is no health, and a truthy
      value of another type throws (it has no `toUpperCase`). */
  function ResolveHealth(inspect: JsValue, ps: JsValue): (r: Result<Option<string>, AppError>)
    ensures r == Ok(None) <==> !Truthy(RawHealth(inspect, ps))
    ensures r.Err? <==> Truthy(RawHealth(inspect, ps)) && !RawHealth(inspect, ps).JsString?
    ensures r.Ok? && r.value.Some? ==> RawHealth(inspect, ps).JsString? && r.value.value == UpperCase(RawHealth(inspect, ps).s)
  {
    var raw := RawHealth(inspect, ps);
    if !Truthy(raw) then Ok(None)
    else if raw.JsString? then Ok(Some(UpperCase(raw.s)))
    else Err(PlainError("raw.toUpperCase is not a function"))
  }

  /** The summary's `Health` only counts when the inspect data has no health status. */
  lemma HealthFallsBackToSummary(inspect: JsValue, ps: JsValue, h: string)
    requires IsNullish(Get(Get(Get(inspect, "State"), "Health"), "Status")) && Get(ps, "Health") == JsString(h) && h != ""
    ensures ResolveHealth(inspect, ps) == Ok(Some(UpperCase(h)))
  {
  }

  // ---------------------------------------------------------------- inspect

  /** The container ID as the `docker inspect` argument (a non-string ID is not modelled). */
  function InspectTarget(id: JsValue): string {
    if id.JsString? then id.s else ""
  }

  function InspectCall(id: JsValue): Invocation {
    Plain("docker", ["inspect", InspectTarget(id)])
  }

  /** `inspectContainer` with its failure caught: the first element of a parsed array (or
      `null`), the parsed value itself otherwise, and `null` when the call fails or its output
      does not parse. */
  function InspectData(reply: Reply, parse: JsonParser): (r: JsValue)
    ensures reply.Err? ==> r == JsNull
    ensures reply.Ok? && parse(reply.value).None? ==> r == JsNull
    ensures reply.Ok? && parse(reply.value).Some? && !parse(reply.value).value.JsArray? ==> r == parse(reply.value).value
    ensures reply.Ok? && parse(reply.value) == Some(JsArray([])) ==> r == JsNull
    ensures reply.Ok? && parse(reply.value).Some? && parse(reply.value).value.JsArray?
            && parse(reply.value).value.items != [] ==>
              var first := parse(reply.value).value.items[0];
              r == (if IsNullish(first) then JsNull else first)
  {
    if reply.Err? then JsNull
    else
      match parse(reply.value)
      case None => JsNull
      case Some(v) =>
        if v.JsArray? then (if v.items == [] then JsNull else Coalesce(v.items[0], JsNull)) else v
  }

  // ---------------------------------------------------------------- one app

  /** One element of the array `collectTelemetry` resolves with; `health` is `None` both when
      it is `null` and when the key is absent (the MISSING case). */
  datatype TelemetryResult = TelemetryResult(
    appId: string, containerName: string, status: JsValue, health: Option<string>,
    metrics: Option<Metrics>, state: JsValue)

  /** What observing one app decides: the container-state snapshot to upsert, the app status
      change (if any), and the result entry. */
  datatype Observation = Observation(snapshot: Snapshot, changes: Option<AppChanges>, result: TelemetryResult)

  /** The inputs every app of one cycle shares: the `docker ps` entries by name, the stats by
      name, the runner's answers, `JSON.parse`, and the cycle's clock reading. */
  datatype Cycle = Cycle(containers: EntryMap, stats: EntryMap, respond: Invocation -> Reply,
                         parse: JsonParser, now: Timestamp)

  /** `containersByName.get(containerName) ?? null`, when truthy. */
  function PsSummary(containers: EntryMap, name: string): Option<JsValue> {
    var k := JsString(name);
    if k in containers && Truthy(containers[k]) then Some(containers[k]) else None
  }

  /** The app's first container state for its own id, when the states were loaded as an array. */
  function ExistingState(view: AppView): Option<ContainerState> {
    if view.containerStates.Included? then Find(view.containerStates.value, (s: ContainerState) => s.appId == view.record.id)
    else None
  }

  /** A percentage field that `sanitizeMetrics` cannot strip of its `%`: a truthy value that
      is not a string has no `replace` method. */
  predicate UnreadablePercent(v: JsValue) {
    Truthy(v) && !v.JsString?
  }

  /** `sanitizeMetrics(statsMap.get(names))`: metrics exist only for a truthy stats entry, and
      the call throws when its `CPUPerc` (read first) or its `MemPerc` is truthy but not a string. */
  function MetricsFor(stats: EntryMap, names: JsValue): (r: Result<Option<Metrics>, AppError>)
    ensures r == Ok(None) <==> !(names in stats && Truthy(stats[names]))
    ensures r.Err? <==> names in stats && Truthy(stats[names])
                        && (UnreadablePercent(Get(stats[names], "CPUPerc")) || UnreadablePercent(Get(stats[names], "MemPerc")))
    ensures r.Ok? && r.value.Some? ==> names in stats && r.value.value == SanitizedFrom(stats[names])
  {
    if !(names in stats && Truthy(stats[names])) then Ok(None)
    else
      var entry := stats[names];
      if UnreadablePercent(Get(entry, "CPUPerc")) then Err(PlainError("entry.CPUPerc.replace is not a function"))
      else if UnreadablePercent(Get(entry, "MemPerc")) then Err(PlainError("entry.MemPerc.replace is not a function"))
      else Ok(Some(SanitizedFrom(entry)))
  }

  /** The app update that follows an observed status: RUNNING also records when the app was
      last seen, EXITED means stopped, MISSING means failed; any other status leaves the app. */
  function StatusChanges(status: JsValue, now: Timestamp): (r: Option<AppChanges>)
    ensures status == JsString("RUNNING") ==> r == Some(AppChanges(Set(RUNNING), Keep, Set(Some(now)), Keep, None))
    ensures status == JsString("EXITED") ==> r == Some(AppChanges(Set(STOPPED), Keep, Keep, Keep, None))
    ensures status == JsString("MISSING") ==> r == Some(AppChanges(Set(FAILED), Keep, Keep, Keep, None))
    ensures r.None? <==> status !in {JsString("RUNNING"), JsString("EXITED"), JsString("MISSING")}
  {
    if status == JsString("RUNNING") then Some(AppChanges(Set(RUNNING), Keep, Set(Some(now)), Keep, None))
    else if status == JsString("EXITED") then Some(AppChanges(Set(STOPPED), Keep, Keep, Keep, None))
    else if status == JsString("MISSING") then Some(AppChanges(Set(FAILED), Keep, Keep, Keep, None))
    else None
  }

  const Missing := JsString("MISSING")

  /** The record written for an app whose container `docker ps` does not list. */
  function MissingSnapshot(view: AppView, name: string, now: Timestamp): Snapshot {
    var existing := ExistingState(view);
    var knownId := if existing.Some? then existing.value.snapshot.containerId else JsUndefined;
    Snapshot(Coalesce(knownId, JsString(name)), name, Missing, None, JsNull, None, now)
  }

  /** The runner calls observing an app issues: one `docker inspect` when its container is listed. */
  function ObservedCalls(view: AppView, c: Cycle): seq<Invocation> {
    var name := ContainerName(view.record);
    if name.Err? then []
    else
      var ps := PsSummary(c.containers, name.value);
      if ps.None? then [] else [InspectCall(Get(ps.value, "ID"))]
  }

  /** The body of `collectTelemetry`'s loop for one app, up to the store writes. */
  function Observe(view: AppView, c: Cycle): (r: Result<Observation, AppError>)
    ensures r.Ok? ==> r.value.result.appId == view.record.id && r.value.result.containerName == r.value.snapshot.containerName
    ensures r.Ok? ==> r.value.changes == StatusChanges(r.value.snapshot.status, c.now)
    ensures r.Ok? ==> r.value.result.status == r.value.snapshot.status && r.value.result.metrics == r.value.snapshot.metrics
                      && r.value.result.state == r.value.snapshot.state
  {
    var name :- ContainerName(view.record);
    var ps := PsSummary(c.containers, name);
    if ps.None? then
      Ok(Observation(MissingSnapshot(view, name, c.now), StatusChanges(Missing, c.now),
                     TelemetryResult(view.record.id, name, Missing, None, None, JsNull)))
    else
      var summary := ps.value;
      var inspect := InspectData(c.respond(InspectCall(Get(summary, "ID"))), c.parse);
      var status := ResolveStatus(inspect, summary);
      var health :- ResolveHealth(inspect, summary);
      var metrics :- MetricsFor(c.stats, Get(summary, "Names"));
      var state := Coalesce(Get(inspect, "State"), JsNull);
      var snapshot := Snapshot(Coalesce(Get(inspect, "Id"), Get(summary, "ID")), name, status, health, state, metrics, c.now);
      Ok(Observation(snapshot, StatusChanges(status, c.now), TelemetryResult(view.record.id, name, status, health, metrics, state)))
  }

  /** An app whose container is not listed is recorded as MISSING, keeping a known container id
      (else using the container name), and the app is marked FAILED; nothing is inspected. */
  lemma ObserveMissing(view: AppView, c: Cycle, name: string)
    requires ContainerName(view.record) == Ok(name) && PsSummary(c.containers, name).None?
    ensures ObservedCalls(view, c) == []
    ensures var o := Observe(view, c);
            o.Ok? && o.value.changes == Some(AppChanges(Set(FAILED), Keep, Keep, Keep, None))
            && o.value.snapshot.status == Missing && o.value.snapshot.health.None? && o.value.snapshot.metrics.None?
            && o.value.snapshot.state == JsNull
            && o.value.snapshot.containerId ==
               (if ExistingState(view).Some? && !IsNullish(ExistingState(view).value.snapshot.containerId)
                then ExistingState(view).value.snapshot.containerId else JsString(name))
  {
  }

  /** An app whose container is listed is inspected once, and its snapshot's status is the
      resolved one from the inspect data and the summary. */
  lemma ObserveListed(view: AppView, c: Cycle, name: string, summary: JsValue)
    requires ContainerName(view.record) == Ok(name) && PsSummary(c.containers, name) == Some(summary)
    requires KeyedByOwnValue(c.containers, "Names")
    ensures ObservedCalls(view, c) == [InspectCall(Get(summary, "ID"))]
    ensures var inspect := InspectData(c.respond(InspectCall(Get(summary, "ID"))), c.parse);
            var o := Observe(view, c);
            (o.Err? <==> ResolveHealth(inspect, summary).Err? || MetricsFor(c.stats, JsString(name)).Err?)
            && (ResolveHealth(inspect, summary).Err? ==> o == Err(ResolveHealth(inspect, summary).error))
            && (o.Ok? ==> o.value.snapshot.status == ResolveStatus(inspect, summary)
                          && o.value.snapshot.containerId == Coalesce(Get(inspect, "Id"), Get(summary, "ID"))
                          && o.value.snapshot.metrics == MetricsFor(c.stats, JsString(name)).value)
  {
    assert Get(summary, "Names") == JsString(name) by {
      assert JsString(name) in c.containers;
    }
  }

  // ---------------------------------------------------------------- the fold over the apps

  /** The state `collectTelemetry` has reached: the store's apps and container states, the
      results so far, the runner calls so far, and the error that ended the loop, if any. */
  datatype Progress = Progress(apps: seq<AppRecord>, states: seq<ContainerState>, results: seq<TelemetryResult>,
                               calls: seq<Invocation>, failure: Option<AppError>)

  /** One iteration: observe, upsert the container state, then update the app when the status
      calls for it. An error (a name that yields no slug, an unreadable health value, an update
      the store refuses) ends the loop with the writes made so far. */
  function Step(p: Progress, view: AppView, c: Cycle): Progress {
    if p.failure.Some? then p
    else
      var calls := p.calls + ObservedCalls(view, c);
      var o := Observe(view, c);
      if o.Err? then p.(calls := calls, failure := Some(o.error))
      else
        var id := view.record.id;
        var snapshot := o.value.snapshot;
        var (states, _) := StatesAfterUpsert(p.states, id, StateChanges(Set(snapshot), None),
                                             StateCreate(None, id, snapshot, None, None), c.now);
        if o.value.changes.None? then Progress(p.apps, states, p.results + [o.value.result], calls, None)
        else
          var (apps, updated) := AppsAfterUpdate(p.apps, id, o.value.changes.value, c.now);
          if updated.Err? then Progress(apps, states, p.results, calls, Some(updated.error))
          else Progress(apps, states, p.results + [o.value.result], calls, None)
  }

  /** One iteration of the loop, as a function of the progress so far and the next app. */
  type Stepper = (Progress, AppView) -> Progress

  function StepOf(c: Cycle): Stepper {
    (p: Progress, view: AppView) => Step(p, view, c)
  }

  /** Runs an iteration over the apps still to observe, from the front. */
  function Fold(p: Progress, views: seq<AppView>, step: Stepper): Progress
    decreases |views|
  {
    if views == [] then p else Fold(step(p, views[0]), views[1..], step)
  }

  /** The loop of `collectTelemetry` over the apps still to observe. */
  function Reconciled(p: Progress, views: seq<AppView>, c: Cycle): Progress {
    Fold(p, views, StepOf(c))
  }

  /** The loop takes the next app's step first. */
  lemma ReconciledUnfold(p: Progress, views: seq<AppView>, c: Cycle)
    requires views != []
    ensures Reconciled(p, views, c) == Reconciled(Step(p, views[0], c), views[1..], c)
  {
    assert StepOf(c)(p, views[0]) == Step(p, views[0], c);
  }

  /** An iteration that does nothing once the loop has thrown. */
  ghost predicate KeepsFailure(step: Stepper) {
    forall p: Progress, view: AppView :: p.failure.Some? ==> step(p, view) == p
  }

  /** An iteration that, when it succeeds, appends one result for its app. */
  ghost predicate AddsOneResult(step: Stepper) {
    forall p: Progress, view: AppView :: p.failure.None? && step(p, view).failure.None? ==>
      |step(p, view).results| == |p.results| + 1 && step(p, view).results[..|p.results|] == p.results
      && step(p, view).results[|p.results|].appId == view.record.id
  }

  predicate IsInspect(call: Invocation) {
    call.command == "docker" && |call.args| == 2 && call.args[0] == "inspect"
  }

  /** An iteration whose only runner calls are `docker inspect` calls. */
  ghost predicate OnlyInspects(step: Stepper) {
    forall p: Progress, view: AppView ::
      |step(p, view).calls| >= |p.calls| && step(p, view).calls[..|p.calls|] == p.calls
      && forall k :: |p.calls| <= k < |step(p, view).calls| ==> IsInspect(step(p, view).calls[k])
  }

  /** A step without failure adds exactly that app's result. */
  lemma StepResult(p: Progress, view: AppView, c: Cycle)
    requires p.failure.None? && Step(p, view, c).failure.None?
    ensures var q := Step(p, view, c);
            |q.results| == |p.results| + 1 && q.results[..|p.results|] == p.results
            && q.results[|p.results|].appId == view.record.id
            && q.results[|p.results|] == Observe(view, c).value.result
  {
  }

  /** A step issues at most the one inspect call of `ObservedCalls`. */
  lemma StepCalls(p: Progress, view: AppView, c: Cycle)
    ensures p.failure.Some? ==> Step(p, view, c) == p
    ensures p.failure.None? ==> Step(p, view, c).calls == p.calls + ObservedCalls(view, c)
  {
  }

  /** The per-app iteration of `collectTelemetry` has the three properties. */
  lemma StepOfProperties(c: Cycle)
    ensures KeepsFailure(StepOf(c)) && AddsOneResult(StepOf(c)) && OnlyInspects(StepOf(c))
  {
    var step := StepOf(c);
    forall p: Progress, view: AppView | p.failure.None? && step(p, view).failure.None?
      ensures |step(p, view).results| == |p.results| + 1 && step(p, view).results[..|p.results|] == p.results
              && step(p, view).results[|p.results|].appId == view.record.id
    {
      StepResult(p, view, c);
    }
    forall p: Progress, view: AppView
      ensures |step(p, view).calls| >= |p.calls| && step(p, view).calls[..|p.calls|] == p.calls
              && forall k :: |p.calls| <= k < |step(p, view).calls| ==> IsInspect(step(p, view).calls[k])
    {
      StepCalls(p, view, c);
    }
    forall p: Progress, view: AppView | p.failure.Some?
      ensures step(p, view) == p
    {
      StepCalls(p, view, c);
    }
  }

  /** Once an iteration has thrown, the rest of the loop does nothing. */
  lemma {:induction false} FoldFailureSticks(p: Progress, views: seq<AppView>, step: Stepper)
    requires KeepsFailure(step) && p.failure.Some?
    ensures Fold(p, views, step) == p
    decreases |views|
  {
    if views != [] {
      FoldFailureSticks(step(p, views[0]), views[1..], step);
    }
  }

  /** A loop that runs to the end appends one result per app, for that app, in app order. */
  lemma {:induction false} FoldOneResultPerApp(p: Progress, views: seq<AppView>, step: Stepper)
    requires KeepsFailure(step) && AddsOneResult(step)
    requires Fold(p, views, step).failure.None?
    ensures var q := Fold(p, views, step);
            |q.results| == |p.results| + |views| && q.results[..|p.results|] == p.results
            && forall k :: 0 <= k < |views| ==> q.results[|p.results| + k].appId == views[k].record.id
    decreases |views|
  {
    if views != [] {
      var p' := step(p, views[0]);
      if p.failure.Some? {
        FoldFailureSticks(p, views, step);
      }
      if p'.failure.Some? {
        FoldFailureSticks(p', views[1..], step);
      }
      FoldOneResultPerApp(p', views[1..], step);
      var q := Fold(p, views, step);
      assert q == Fold(p', views[1..], step);
      assert q.results[..|p.results|] == q.results[..|p'.results|][..|p.results|];
      forall k | 0 <= k < |views|
        ensures q.results[|p.results| + k].appId == views[k].record.id
      {
        if k == 0 {
          assert q.results[|p.results|] == q.results[..|p'.results|][|p.results|];
        } else {
          assert views[k] == views[1..][k - 1];
          assert |p.results| + k == |p'.results| + (k - 1);
        }
      }
    }
  }

  /** A loop of iterations that only inspect extends the call log with inspect calls only. */
  lemma {:induction false} FoldOnlyInspects(p: Progress, views: seq<AppView>, step: Stepper)
    requires OnlyInspects(step)
    ensures var q := Fold(p, views, step);
            |q.calls| >= |p.calls| && q.calls[..|p.calls|] == p.calls
            && forall k :: |p.calls| <= k < |q.calls| ==> IsInspect(q.calls[k])
    decreases |views|
  {
    if views != [] {
      var p' := step(p, views[0]);
      FoldOnlyInspects(p', views[1..], step);
      var q := Fold(p, views, step);
      assert q == Fold(p', views[1..], step);
      assert q.calls[..|p.calls|] == q.calls[..|p'.calls|][..|p.calls|];
      forall k | |p.calls| <= k < |q.calls|
        ensures IsInspect(q.calls[k])
      {
        if k < |p'.calls| {
          assert q.calls[k] == q.calls[..|p'.calls|][k] == p'.calls[k];
        }
      }
    }
  }

  /** Iterations that agree everywhere give the same loop. */
  lemma {:induction false} FoldCongruent(p: Progress, views: seq<AppView>, step: Stepper, step': Stepper)
    requires forall q: Progress, view: AppView :: step(q, view) == step'(q, view)
    ensures Fold(p, views, step) == Fold(p, views, step')
    decreases |views|
  {
    if views != [] {
      FoldCongruent(step(p, views[0]), views[1..], step, step');
    }
  }

  /** Once the loop has thrown, nothing further happens. */
  lemma FailureSticks(p: Progress, views: seq<AppView>, c: Cycle)
    requires p.failure.Some?
    ensures Reconciled(p, views, c) == p
  {
    StepOfProperties(c);
    FoldFailureSticks(p, views, StepOf(c));
  }

  /** A completed cycle yields one result per app, for that app, in app order. */
  lemma OneResultPerApp(p: Progress, views: seq<AppView>, c: Cycle)
    requires Reconciled(p, views, c).failure.None?
    ensures var q := Reconciled(p, views, c);
            |q.results| == |p.results| + |views| && q.results[..|p.results|] == p.results
            && forall k :: 0 <= k < |views| ==> q.results[|p.results| + k].appId == views[k].record.id
  {
    StepOfProperties(c);
    FoldOneResultPerApp(p, views, StepOf(c));
  }

  /** The only runner calls the loop issues are `docker inspect` calls, one per listed container. */
  lemma LoopOnlyInspects(p: Progress, views: seq<AppView>, c: Cycle)
    ensures var q := Reconciled(p, views, c);
            |q.calls| >= |p.calls| && q.calls[..|p.calls|] == p.calls
            && forall k :: |p.calls| <= k < |q.calls| ==> IsInspect(q.calls[k])
  {
    StepOfProperties(c);
    FoldOnlyInspects(p, views, StepOf(c));
  }

  /** An app observed RUNNING is marked RUNNING with `lastSeenAt` at the cycle's clock reading. */
  lemma RunningAppIsMarkedRunning(p: Progress, view: AppView, c: Cycle, i: nat)
    requires p.failure.None? && Observe(view, c).Ok? && Observe(view, c).value.snapshot.status == JsString("RUNNING")
    requires AppIndex(p.apps, view.record.id) == Some(i)
    ensures var q := Step(p, view, c);
            q.failure.None? && |q.apps| == |p.apps| && q.apps[i].status == RUNNING && q.apps[i].lastSeenAt == Some(c.now)
            && (forall j :: 0 <= j < |p.apps| && j != i ==> q.apps[j] == p.apps[j])
  {
  }

  /** The status table for an observed app: EXITED gives STOPPED, MISSING gives FAILED (both
      without touching `lastSeenAt`), and any other status but RUNNING leaves the apps as they are. */
  lemma StatusTable(p: Progress, view: AppView, c: Cycle, i: nat)
    requires p.failure.None? && Observe(view, c).Ok?
    requires AppIndex(p.apps, view.record.id) == Some(i)
    ensures var status := Observe(view, c).value.snapshot.status;
            var q := Step(p, view, c);
            q.failure.None? && |q.apps| == |p.apps|
            && (status == JsString("EXITED") ==> q.apps[i].status == STOPPED && q.apps[i].lastSeenAt == p.apps[i].lastSeenAt)
            && (status == Missing ==> q.apps[i].status == FAILED && q.apps[i].lastSeenAt == p.apps[i].lastSeenAt)
            && (status !in {JsString("RUNNING"), JsString("EXITED"), Missing} ==> q.apps == p.apps)
  {
  }

  // ---------------------------------------------------------------- the whole cycle

  const PsCall := Plain("docker", ["ps", "--all", "--format", "{{json .}}"])
  const StatsCall := Plain("docker", ["stats", "--no-stream", "--format", "{{json .}}"])

  /** What a telemetry cycle leaves in the store and the runner's log, and what it settles to. */
  datatype Outcome = Outcome(apps: seq<AppRecord>, states: seq<ContainerState>, calls: seq<Invocation>,
                             result: Result<seq<TelemetryResult>, AppError>)

  /** The loop's starting point once `docker ps` and `docker stats` have been called. */
  function LoopStart(apps: seq<AppRecord>, states: seq<ContainerState>): Progress {
    Progress(apps, states, [], [PsCall, StatsCall], None)
  }

  function Settle(p: Progress): Result<seq<TelemetryResult>, AppError> {
    if p.failure.Some? then Err(p.failure.value) else Ok(p.results)
  }

  /** `collectTelemetry` over the apps `findMany` returned: no apps is an empty result with no
      call; a failing `docker ps` is an empty result with no write; output of `docker ps` that
      does not parse (or a null entry in it) fails the cycle before any write; otherwise the
      loop over the apps. `calls` are the runner calls the cycle issues. */
  function TelemetryCycle(views: seq<AppView>, apps: seq<AppRecord>, states: seq<ContainerState>,
                          respond: Invocation -> Reply, parse: JsonParser, now: Timestamp): Outcome
  {
    if views == [] then Outcome(apps, states, [], Ok([]))
    else
      var ps := respond(PsCall);
      if ps.Err? then Outcome(apps, states, [PsCall], Ok([]))
      else
        var stats := CollectedStats(respond(StatsCall), parse);
        var containers := ContainersOf(ps.value, parse);
        if containers.Err? then Outcome(apps, states, [PsCall, StatsCall], Err(containers.error))
        else
          var q := Reconciled(LoopStart(apps, states), views, Cycle(containers.value, stats, respond, parse, now));
          Outcome(q.apps, q.states, q.calls, Settle(q))
  }

  /** No apps: nothing is called and nothing is written. */
  lemma NoAppsNoCalls(apps: seq<AppRecord>, states: seq<ContainerState>, respond: Invocation -> Reply,
                      parse: JsonParser, now: Timestamp)
    ensures TelemetryCycle([], apps, states, respond, parse, now) == Outcome(apps, states, [], Ok([]))
  {
  }

  /** A cycle that runs to the end resolves with one result per app, in app order, and calls
      `docker ps`, `docker stats`, then only `docker inspect`. */
  lemma CycleResultsFollowApps(views: seq<AppView>, apps: seq<AppRecord>, states: seq<ContainerState>,
                               respond: Invocation -> Reply, parse: JsonParser, now: Timestamp)
    requires views != [] && respond(PsCall).Ok?
    requires TelemetryCycle(views, apps, states, respond, parse, now).result.Ok?
    ensures var o := TelemetryCycle(views, apps, states, respond, parse, now);
            |o.result.value| == |views| && (forall k :: 0 <= k < |views| ==> o.result.value[k].appId == views[k].record.id)
            && |o.calls| >= 2 && o.calls[0] == PsCall && o.calls[1] == StatsCall
            && forall k :: 2 <= k < |o.calls| ==> IsInspect(o.calls[k])
  {
    var containers := ContainersOf(respond(PsCall).value, parse);
    assert containers.Ok?;
    var c := Cycle(containers.value, CollectedStats(respond(StatsCall), parse), respond, parse, now);
    var start := LoopStart(apps, states);
    var q := Reconciled(start, views, c);
    assert TelemetryCycle(views, apps, states, respond, parse, now) == Outcome(q.apps, q.states, q.calls, Settle(q));
    assert q.failure.None?;
    OneResultPerApp(start, views, c);
    LoopOnlyInspects(start, views, c);
    assert q.calls[..2] == [PsCall, StatsCall];
    assert q.calls[0] == q.calls[..2][0] && q.calls[1] == q.calls[..2][1];
  }

  /** A failed `docker stats` call gives the same cycle as stats output with no entries:
      metrics are simply unavailable. */
  lemma StatsFailureDegrades(views: seq<AppView>, apps: seq<AppRecord>, states: seq<ContainerState>,
                             respond: Invocation -> Reply, parse: JsonParser, now: Timestamp, e: AppError)
    requires respond(StatsCall) == Err(e)
    ensures var emptyStats := (i: Invocation) => if i == StatsCall then Ok("") else respond(i);
            TelemetryCycle(views, apps, states, respond, parse, now) ==
            TelemetryCycle(views, apps, states, emptyStats, parse, now)
  {
    var emptyStats := (i: Invocation) => if i == StatsCall then Ok("") else respond(i);
    if views != [] && respond(PsCall).Ok? {
      assert PsCall != StatsCall;
      assert emptyStats(PsCall) == respond(PsCall);
      BlankStatsOutputIsEmpty("", parse);
      assert CollectedStats(emptyStats(StatsCall), parse) == map[];
      assert CollectedStats(respond(StatsCall), parse) == map[];
      var containers := ContainersOf(respond(PsCall).value, parse);
      if containers.Ok? {
        var c := Cycle(containers.value, map[], respond, parse, now);
        var c' := Cycle(containers.value, map[], emptyStats, parse, now);
        ReconciledWithoutStats(LoopStart(apps, states), views, c, c');
      }
    }
  }

  /** Two cycles that agree on everything but a `docker stats` answer the loop never asks for
      reconcile identically. */
  lemma ReconciledWithoutStats(p: Progress, views: seq<AppView>, c: Cycle, c': Cycle)
    requires c.containers == c'.containers && c.stats == c'.stats && c.now == c'.now
    requires forall i: Invocation :: IsInspect(i) ==> c.respond(i) == c'.respond(i)
    requires c.parse == c'.parse
    ensures Reconciled(p, views, c) == Reconciled(p, views, c')
  {
    forall q: Progress, view: AppView
      ensures StepOf(c)(q, view) == StepOf(c')(q, view)
    {
      ObserveWithoutStats(view, c, c');
    }
    FoldCongruent(p, views, StepOf(c), StepOf(c'));
  }

  /** Observing an app asks the runner for nothing but the inspect call. */
  lemma ObserveWithoutStats(view: AppView, c: Cycle, c': Cycle)
    requires c.containers == c'.containers && c.stats == c'.stats && c.now == c'.now
    requires forall i: Invocation :: IsInspect(i) ==> c.respond(i) == c'.respond(i)
    requires c.parse == c'.parse
    ensures ObservedCalls(view, c) == ObservedCalls(view, c') && Observe(view, c) == Observe(view, c')
  {
    if ContainerName(view.record).Ok? {
      var ps := PsSummary(c.containers, ContainerName(view.record).value);
      if ps.Some? {
        assert IsInspect(InspectCall(Get(ps.value, "ID")));
      }
    }
  }

  /** A failing `docker ps` call ends the cycle with an empty result and no write. */
  lemma PsFailureWritesNothing(views: seq<AppView>, apps: seq<AppRecord>, states: seq<ContainerState>,
                               respond: Invocation -> Reply, parse: JsonParser, now: Timestamp)
    requires views != [] && respond(PsCall).Err?
    ensures TelemetryCycle(views, apps, states, respond, parse, now) == Outcome(apps, states, [PsCall], Ok([]))
  {
  }

  /** `docker ps` output with a line that does not parse fails the cycle after the two listing
      calls and before any write, reporting that line. */
  lemma MalformedPsOutputWritesNothing(views: seq<AppView>, apps: seq<AppRecord>, states: seq<ContainerState>,
                                       respond: Invocation -> Reply, parse: JsonParser, now: Timestamp)
    requires views != [] && respond(PsCall).Ok? && ParseJsonLines(respond(PsCall).value, parse).Err?
    ensures var o := TelemetryCycle(views, apps, states, respond, parse, now);
            o.apps == apps && o.states == states && o.calls == [PsCall, StatsCall]
            && o.result.Err? && o.result.error.JsonLineError? && o.result.error.line in JsonLines(respond(PsCall).value)
  {
  }

  // ---------------------------------------------------------------- updating the base URL

  const AppIdRequiredMessage := "appId is required."

  /** `openAppBaseUrl?.trim() || null`: null or undefined is no base URL, a string is trimmed
      (blank is no base URL), and any other value throws (it has no `trim`). */
  function SanitizeBaseUrl(value: JsValue): (r: Result<Option<string>, AppError>)
    ensures IsNullish(value) ==> r == Ok(None)
    ensures value.JsString? ==> r.Ok? && (r.value.None? <==> Trim(value.s) == "")
    ensures value.JsString? && r.value.Some? ==> r.value.value == Trim(value.s)
    ensures r.Err? <==> !IsNullish(value) && !value.JsString?
  {
    match value
    case JsUndefined => Ok(None)
    case JsNull => Ok(None)
    case JsString(s) => var t := Trim(s); if t == "" then Ok(None) else Ok(Some(t))
    case _ => Err(PlainError("openAppBaseUrl.trim is not a function"))
  }

  /** A sanitized base URL is non-blank text that sanitizes to itself. */
  lemma SanitizeBaseUrlIdempotent(value: JsValue)
    requires SanitizeBaseUrl(value).Ok? && SanitizeBaseUrl(value).value.Some?
    ensures var url := SanitizeBaseUrl(value).value.value;
            url != "" && SanitizeBaseUrl(JsString(url)) == Ok(Some(url))
  {
    assert value.JsString?;
    SanitizeTrimmedText(Trim(value.s));
  }

  /** Text that `trim` leaves unchanged and that is not blank sanitizes to itself. */
  lemma SanitizeTrimmedText(t: string)
    requires t != "" && Trim(t) == t
    ensures SanitizeBaseUrl(JsString(t)) == Ok(Some(t))
  {
  }

  /** The keys `updateOpenAppBaseUrl` selects from the updated app. */
  const LinkFields: set<AppField> := {Id, Name, OpenAppBaseUrl, Port}

  // ---------------------------------------------------------------- the open-app link

  /** `buildOpenAppUrl`: the app's own base URL, else its settings' one; no base is no link;
      without a (truthy) port the base itself; otherwise the base without one trailing `/`,
      then `:` and the port. */
  function BuildOpenAppUrl(app: Option<AppView>): (r: Option<string>)
    ensures app.None? ==> r.None?
    ensures app.Some? ==> (r.None? <==> BaseUrl(app.value).None?)
  {
    if app.None? then None
    else
      var base := BaseUrl(app.value);
      if base.None? || base.value == "" || app.value.record.port.None? || app.value.record.port.value == 0 then base
      else Some(StripTrailingSlash(base.value) + ":" + IntToString(app.value.record.port.value))
  }

  /** `app.openAppBaseUrl ?? app.settings?.openAppBaseUrl ?? null`. */
  function BaseUrl(app: AppView): Option<string> {
    if app.record.openAppBaseUrl.Some? then app.record.openAppBaseUrl
    else if app.settings.Included? && app.settings.value.Some? then app.settings.value.value.openAppBaseUrl
    else None
  }

  function StripTrailingSlash(base: string): (r: string)
    ensures EndsWith(base, "/") ==> r + "/" == base
    ensures !EndsWith(base, "/") ==> r == base
  {
    if EndsWith(base, "/") then base[..|base| - 1] else base
  }

  /** A link with a port: the base (one trailing `/` dropped), `:`, and the decimal port, which
      reads back as the port. */
  lemma LinkCarriesPort(app: AppView)
    requires BaseUrl(app).Some? && BaseUrl(app).value != "" && app.record.port.Some? && app.record.port.value != 0
    ensures var link := BuildOpenAppUrl(Some(app)).value;
            var base := StripTrailingSlash(BaseUrl(app).value);
            link == base + ":" + IntToString(app.record.port.value)
            && StartsWith(link, base + ":")
            && ParseIntPrefix(link[|base| + 1..]) == app.record.port
  {
    var link := BuildOpenAppUrl(Some(app)).value;
    var base := StripTrailingSlash(BaseUrl(app).value);
    assert link[|base| + 1..] == IntToString(app.record.port.value);
    ParseIntOfIntToString(app.record.port.value);
  }

  /** The app's own base URL takes precedence over its settings' one. */
  lemma OwnBaseUrlWins(app: AppView, settings: Settings)
    requires app.record.openAppBaseUrl.Some?
    ensures BuildOpenAppUrl(Some(app)) == BuildOpenAppUrl(Some(app.(settings := Included(Some(settings)))))
  {
  }

  /** Without a port the link is the base URL unchanged, a trailing `/` included. */
  lemma NoPortGivesBase(app: AppView)
    requires app.record.port.None? || app.record.port == Some(0)
    ensures BuildOpenAppUrl(Some(app)) == BaseUrl(app)
  {
  }

  /** A base URL `http://edge-gateway/` with port 7000 gives `http://edge-gateway:7000`. */
  lemma EdgeGatewayLink(app: AppView)
    requires app.record.openAppBaseUrl.None? && app.record.port == Some(7000)
    requires app.settings == Included(Some(Settings("settings_1", app.record.id, Some("http://edge-gateway/"), 0, 0)))
    ensures BuildOpenAppUrl(Some(app)) == Some("http://edge-gateway:7000")
  {
    assert IntToString(7000) == "7000" by {
      assert NatToString(7000) == NatToString(700) + [DigitChar(0)];
      assert NatToString(700) == NatToString(70) + [DigitChar(0)];
      assert NatToString(70) == NatToString(7) + [DigitChar(0)];
    }
    assert BaseUrl(app) == Some("http://edge-gateway/");
    assert StripTrailingSlash("http://edge-gateway/") == "http://edge-gateway" by {
      assert EndsWith("http://edge-gateway/", "/");
    }
    assert "http://edge-gateway" + ":" + "7000" == "http://edge-gateway:7000";
  }
}
