/** `loadConfig`: the API server's settings read from the environment with their defaults. */
module Config {
  import opened Wrappers
  import opened JsText

  const DefaultPort := 4000

  datatype ServerConfig = ServerConfig(port: int, corsOrigin: string, logLevel: string, autoStartTelemetry: bool)

  function EnvValue(env: map<string, string>, key: string): Option<string> {
    if key in env then Some(env[key]) else None
  }

  /** `Number.parseInt(value ?? '4000', 10)`, with NaN replaced by the default; no range check.
      The integer is read exactly, without the rounding to a double past 2^53. */
  function ConfiguredPort(value: Option<string>): (r: int)
    ensures value.None? ==> r == DefaultPort
    ensures value.Some? && ParseIntPrefix(value.value).None? ==> r == DefaultPort
    ensures value.Some? && ParseIntPrefix(value.value).Some? ==> r == ParseIntPrefix(value.value).value
  {
    var text := if value.Some? then value.value else NatToString(DefaultPort);
    ParseIntPrefixOfDefault();
    var parsed := ParseIntPrefix(text);
    if parsed.None? then DefaultPort else parsed.value
  }

  lemma ParseIntPrefixOfDefault()
    ensures ParseIntPrefix(NatToString(DefaultPort)) == Some(DefaultPort)
  {
    ParseIntOfIntToString(DefaultPort);
  }

  /** A truthy (non-empty) flag enables telemetry unless it is `false` in any letter case. */
  function AutoStart(value: Option<string>): (r: bool)
    ensures value.None? || value == Some("") ==> !r
    ensures value.Some? && value.value != "" ==> (r <==> LowerCase(value.value) != "false")
  {
    if value.Some? && value.value != "" then LowerCase(value.value) != "false" else false
  }

  /** `loadConfig`. */
  function LoadConfig(env: map<string, string>): (r: ServerConfig)
    ensures r.port == ConfiguredPort(EnvValue(env, "DCC_API_PORT"))
    ensures r.corsOrigin == (if "DCC_API_CORS_ORIGIN" in env then env["DCC_API_CORS_ORIGIN"] else "*")
    ensures r.logLevel == (if "DCC_LOG_LEVEL" in env then env["DCC_LOG_LEVEL"] else "info")
    ensures r.autoStartTelemetry == AutoStart(EnvValue(env, "DCC_API_AUTOSTART_TELEMETRY"))
  {
    ServerConfig(
      ConfiguredPort(EnvValue(env, "DCC_API_PORT")),
      if "DCC_API_CORS_ORIGIN" in env then env["DCC_API_CORS_ORIGIN"] else "*",
      if "DCC_LOG_LEVEL" in env then env["DCC_LOG_LEVEL"] else "info",
      AutoStart(EnvValue(env, "DCC_API_AUTOSTART_TELEMETRY")))
  }

  /** An empty environment gives port 4000, any origin, log level `info` and no telemetry. */
  lemma DefaultsOfEmptyEnvironment()
    ensures LoadConfig(map[]) == ServerConfig(4000, "*", "info", false)
  {
  }

  /** Any integer written in decimal is the port, even outside the TCP range. */
  lemma PortIsReadBack(env: map<string, string>, port: int)
    requires EnvValue(env, "DCC_API_PORT") == Some(IntToString(port))
    ensures LoadConfig(env).port == port
  {
    ParseIntOfIntToString(port);
  }

  /** `parseInt` reads the leading digits and ignores what follows them: `8080abc` is port 8080. */
  lemma PortReadsNumericPrefix(env: map<string, string>, digits: string, rest: string)
    requires digits != [] && AllDigits(digits) && (rest == [] || !IsDigit(rest[0]))
    requires EnvValue(env, "DCC_API_PORT") == Some(digits + rest)
    ensures LoadConfig(env).port == DigitsValue(digits)
  {
    ParseIntOfDigitsThen(digits, rest);
  }

  /** A port that is not a number falls back to 4000. */
  lemma NonNumericPortDefaults(env: map<string, string>, value: string)
    requires EnvValue(env, "DCC_API_PORT") == Some(value) && ParseIntPrefix(value).None?
    ensures LoadConfig(env).port == DefaultPort
  {
  }

  /** `FALSE`, `False` and `false` all disable telemetry. */
  lemma FalseInAnyCaseDisables()
    ensures !AutoStart(Some("FALSE")) && !AutoStart(Some("False")) && !AutoStart(Some("false"))
  {
    assert LowerCase("FALSE") == "false";
    assert LowerCase("False") == "false";
    assert LowerCase("false") == "false";
  }

  /** Any other non-empty value, `0` included, enables it. */
  lemma OtherFlagsEnable()
    ensures AutoStart(Some("0")) && AutoStart(Some("true"))
  {
    assert LowerCase("0") == "0";
    assert LowerCase("true") == "true";
  }
}
