/** The database URL bootstrap: a configured `DATABASE_URL` is kept, an empty or missing one
    is replaced by the embedded SQLite fallback with one warning. */
module Database {
  import opened Wrappers
  import opened JsText

  const DatabaseUrlKey := "DATABASE_URL"

  /** The value of an environment variable (`undefined` when unset). */
  function EnvValue(env: map<string, string>, key: string): Option<string> {
    if key in env then Some(env[key]) else None
  }

  /** `isEmpty`: unset, or only whitespace. */
  function IsEmpty(value: Option<string>): (r: bool)
    ensures value.None? ==> r
    ensures value.Some? ==> (r <==> Trim(value.value) == "")
  {
    value.None? || Trim(value.value) == ""
  }

  /** A value made only of whitespace counts as empty; one with any other character does not. */
  lemma IsEmptyMeansBlank(s: string)
    ensures IsEmpty(Some(s)) <==> forall i :: 0 <= i < |s| ==> IsJsWhitespace(s[i])
  {
    if forall i :: 0 <= i < |s| ==> IsJsWhitespace(s[i]) {
      AllWhitespaceTrimsToEmpty(s);
    } else {
      var i :| 0 <= i < |s| && !IsJsWhitespace(s[i]);
      TrimKeepsNonWhitespace(s, i);
    }
  }

  /** Trimming never removes a character that is not whitespace. */
  lemma {:induction false} TrimKeepsNonWhitespace(s: string, i: nat)
    requires i < |s| && !IsJsWhitespace(s[i])
    ensures Trim(s) != ""
  {
    var t := TrimStart(s);
    assert |s| - |t| <= i;
    assert t[i - (|s| - |t|)] == s[i];
    assert TrimEnd(t) != "" by {
      var k := i - (|s| - |t|);
      var e := TrimEnd(t);
      assert !(|e| <= k);
    }
  }

  /** `resolveDatabaseUrl`: the configured value unless it is empty, else the fallback. */
  function ResolveDatabaseUrl(env: map<string, string>, fallback: string): (r: string)
    ensures !IsEmpty(EnvValue(env, DatabaseUrlKey)) ==> r == env[DatabaseUrlKey]
    ensures IsEmpty(EnvValue(env, DatabaseUrlKey)) ==> r == fallback
  {
    if !IsEmpty(EnvValue(env, DatabaseUrlKey)) then env[DatabaseUrlKey] else fallback
  }

  function FallbackWarning(url: string): string {
    "DATABASE_URL was not provided. Falling back to embedded SQLite database at " + url + "."
  }

  /** The process environment, assigned in place. */
  class Environment {
    var vars: map<string, string>

    constructor(vars: map<string, string>)
      ensures this.vars == vars
    {
      this.vars := vars;
    }
  }

  /** A logger that records its warnings. */
  class Logger {
    var warnings: seq<string>

    constructor()
      ensures warnings == []
    {
      warnings := [];
    }

    method Warn(message: string)
      modifies this
      ensures warnings == old(warnings) + [message]
    {
      warnings := warnings + [message];
    }
  }

  /** `ensureDatabaseUrl`: an empty or missing `DATABASE_URL` is set to the fallback, with one
      warning naming it (when there is a logger); a configured one is left alone, silently. */
  method EnsureDatabaseUrl(env: Environment, logger: Logger?, fallback: string) returns (url: string)
    modifies env, logger
    ensures url == ResolveDatabaseUrl(old(env.vars), fallback)
    ensures IsEmpty(EnvValue(old(env.vars), DatabaseUrlKey)) ==>
              env.vars == old(env.vars)[DatabaseUrlKey := fallback]
              && (logger != null ==> logger.warnings == old(logger.warnings) + [FallbackWarning(fallback)])
    ensures !IsEmpty(EnvValue(old(env.vars), DatabaseUrlKey)) ==>
              env.vars == old(env.vars) && (logger != null ==> logger.warnings == old(logger.warnings))
  {
    url := ResolveDatabaseUrl(env.vars, fallback);
    if IsEmpty(EnvValue(env.vars, DatabaseUrlKey)) {
      env.vars := env.vars[DatabaseUrlKey := url];
      if logger != null {
        logger.Warn(FallbackWarning(url));
      }
    }
  }

  /** After the fallback is written, the URL resolves to it and is no longer empty, so a second
      bootstrap changes nothing and stays silent (for a non-blank fallback). */
  lemma EnsuredUrlIsStable(env: map<string, string>, fallback: string)
    requires Trim(fallback) != ""
    ensures var after := env[DatabaseUrlKey := ResolveDatabaseUrl(env, fallback)];
            !IsEmpty(EnvValue(after, DatabaseUrlKey)) && ResolveDatabaseUrl(after, fallback) == ResolveDatabaseUrl(env, fallback)
  {
  }
}
