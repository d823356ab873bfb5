/**
 * The startup checks the application runs before serving: required environment
 * variables, required configuration values, a probe of the market-data API, a probe
 * of the database; the first failure ends the process with status 1, and only when
 * all pass is the job scheduler started, whose failure is merely reported.
 * The environment and the configuration are maps; what the network and the database
 * answered is an input.
 */
module Startup {
  import opened Wrappers

  /** The process environment (an unset variable is an absent key) or the config dictionary. */
  type Settings = map<string, string>

  /**
   * The message an exception carries, by its origin; `Text` spells out the exact
   * string each one prints as.
   */
  datatype Msg =
    | MissingEnv(names: seq<string>)       // validate_env_variables
    | MissingConfig(names: seq<string>)    // validate_configuration
    | ApiKeyMissing                        // the first guard of the API check
    | BaseUrlMissing                       // the second guard of the API check
    | BadStatus(status: nat, body: string) // a response other than 200
    | ApiTimedOut                          // requests.Timeout
    | ApiUnreachable(reason: string)       // requests.ConnectionError
    | DbUnreachable                        // validate_db_connection
    | Unexpected(inner: Msg)               // the catch-all of the API check, around `str(e)`
    | Raw(text: string)                    // a message from code outside the model

  /** The Python exceptions the checks raise. */
  datatype Exc =
    | OSError(msg: Msg)          // EnvironmentError is an alias of OSError
    | ConnectionError(msg: Msg)  // the builtin, a subclass of OSError
    | ValueError(msg: Msg)
    | KeyError(key: string)
    | Exception(msg: Msg)

  /** `except EnvironmentError` catches OSError and every subclass, ConnectionError included. */
  predicate IsOSError(e: Exc)
  {
    e.OSError? || e.ConnectionError?
  }

  const RequiredEnvVars: seq<string> := [
    "SECRET_KEY", "PASSWORD_ENCRYPTION_ALGORITHM", "ACCESS_TOKEN_EXPIRE_MINUTES",
    "FINNHUB_API_KEY", "SUPABASE_URL", "SUPABASE_SERVICE_KEY"]

  const RequiredConfigVars: seq<string> := ["FINNHUB_API_BASE_URL", "FINNHUB_WEBSOCKET_URL"]

  /** The configuration dictionary as shipped. */
  const ShippedConfig: Settings := map[
    "FINNHUB_API_BASE_URL" := "https://finnhub.io/api/v1/",
    "FINNHUB_WEBSOCKET_URL" := "wss://ws.finnhub.io"]

  /** `not os.getenv(k)` and `k not in config or not config.get(k)`: absent or empty. */
  predicate Unset(m: Settings, k: string)
  {
    k !in m || m[k] == ""
  }

  /** The names of `names` that are unset in `m`, in the order of `names`. */
  function MissingFrom(names: seq<string>, m: Settings): seq<string>
  {
    if names == [] then []
    else (if Unset(m, names[0]) then [names[0]] else []) + MissingFrom(names[1..], m)
  }

  /** `sep.join(xs)`. */
  function Join(xs: seq<string>, sep: string): string
  {
    if xs == [] then ""
    else if |xs| == 1 then xs[0]
    else xs[0] + sep + Join(xs[1..], sep)
  }

  /** `t` occurs in `s` at position `k`. */
  ghost predicate OccursAt(s: string, t: string, k: int)
  {
    0 <= k <= |s| - |t| && s[k..k + |t|] == t
  }

  /** `t` occurs in `s`. */
  ghost predicate Contains(s: string, t: string)
  {
    exists k :: OccursAt(s, t, k)
  }

  /** `a` is `b` with some elements left out, the rest in their order. */
  predicate Subsequence<T(==)>(a: seq<T>, b: seq<T>)
    decreases |b|
  {
    if a == [] then true
    else if b == [] then false
    else (a[0] == b[0] && Subsequence(a[1..], b[1..])) || Subsequence(a, b[1..])
  }

  /** Decimal digits of `n`, as an f-string prints it. */
  function Decimal(n: nat): (s: string)
    ensures |s| >= 1
  {
    var d := ["0", "1", "2", "3", "4", "5", "6", "7", "8", "9"][n % 10];
    if n < 10 then d else Decimal(n / 10) + d
  }

  const EnvPrefix: string := "❌ Missing environment variables: "
  const ConfigPrefix: string := "❌ Missing or empty configuration values: "
  const UnexpectedPrefix: string := "❌ Unexpected error: "

  /** The text of a message, as printed. */
  function Text(m: Msg): string
  {
    match m
    case MissingEnv(names) => EnvPrefix + Join(names, ", ")
    case MissingConfig(names) => ConfigPrefix + Join(names, ", ")
    case ApiKeyMissing => "❌ FINNHUB_API_KEY is missing in environment variables."
    case BaseUrlMissing => "❌ FINNHUB_API_BASE_URL is missing in config."
    case BadStatus(status, body) => "❌ API returned status code " + Decimal(status) + ": " + body
    case ApiTimedOut => "❌ Finnhub API connection timed out."
    case ApiUnreachable(reason) => "❌ Error connecting to Finnhub API: " + reason
    case DbUnreachable => "❌ Could NOT connect to Supabase DB. Check your SUPABASE_URL / SERVICE_KEY."
    case Unexpected(inner) => UnexpectedPrefix + Text(inner)
    case Raw(text) => text
  }

  /** `str(e)`; a KeyError prints its key quoted. */
  function Str(e: Exc): string
  {
    match e
    case OSError(m) => Text(m)
    case ConnectionError(m) => Text(m)
    case ValueError(m) => Text(m)
    case KeyError(k) => "'" + k + "'"
    case Exception(m) => Text(m)
  }

  /** `validate_env_variables`. */
  function ValidateEnv(env: Settings): Option<Exc>
  {
    var missing := MissingFrom(RequiredEnvVars, env);
    if missing == [] then None else Some(OSError(MissingEnv(missing)))
  }

  /** `validate_configuration`. */
  function ValidateConfiguration(config: Settings): Option<Exc>
  {
    var missing := MissingFrom(RequiredConfigVars, config);
    if missing == [] then None else Some(OSError(MissingConfig(missing)))
  }

  /** What the GET on the quote endpoint produced. */
  datatype Probe =
    | Responded(status: nat, body: string)  // a response; its JSON may or may not parse
    | TimedOut                              // requests.Timeout
    | ConnectFailed(reason: string)         // requests.ConnectionError
    | OtherFailure(reason: string)          // any other exception of the request

  /**
   * `check_third_party_services`: the two guards run before any request; then the
   * probe's outcome. The ConnectionError raised for a non-200 status is raised inside
   * the try, is not a requests exception, and so is re-raised as a plain Exception.
   */
  function CheckThirdPartyServices(env: Settings, config: Settings, probe: Probe): Option<Exc>
  {
    if Unset(env, "FINNHUB_API_KEY") then Some(ValueError(ApiKeyMissing))
    else if Unset(config, "FINNHUB_API_BASE_URL") then Some(ValueError(BaseUrlMissing))
    else
      match probe
      case Responded(status, body) =>
        if status == 200 then None else Some(Exception(Unexpected(BadStatus(status, body))))
      case TimedOut => Some(ConnectionError(ApiTimedOut))
      case ConnectFailed(reason) => Some(ConnectionError(ApiUnreachable(reason)))
      case OtherFailure(reason) => Some(Exception(Unexpected(Raw(reason))))
  }

  /** `validate_db_connection`; `connected` is what `check_connection()` returned. */
  function ValidateDbConnection(connected: bool): Option<Exc>
  {
    if connected then None else Some(ConnectionError(DbUnreachable))
  }

  /**
   * `start_scheduler`: the cron trigger of the second job reads `config["TIMEZONE"]`;
   * `fault` is a failure of `scheduler.start()`, which runs only after that lookup.
   * Creating the scheduler and adding the interval job, before the lookup, are taken
   * not to fail.
   */
  function StartScheduler(config: Settings, fault: Option<string>): Option<Exc>
  {
    if "TIMEZONE" !in config then Some(KeyError("TIMEZONE"))
    else if fault.Some? then Some(Exception(Raw(fault.value)))
    else None
  }

  datatype Check = EnvCheck | ConfigCheck | ServicesCheck | DbCheck

  const AllChecks: seq<Check> := [EnvCheck, ConfigCheck, ServicesCheck, DbCheck]

  /** The outcome of one check. */
  function RunCheck(c: Check, env: Settings, config: Settings, probe: Probe, connected: bool): Option<Exc>
  {
    match c
    case EnvCheck => ValidateEnv(env)
    case ConfigCheck => ValidateConfiguration(config)
    case ServicesCheck => CheckThirdPartyServices(env, config, probe)
    case DbCheck => ValidateDbConnection(connected)
  }

  /** Every check of `checks` passed. */
  predicate Passed(checks: seq<Check>, env: Settings, config: Settings, probe: Probe, connected: bool)
  {
    forall i | 0 <= i < |checks| :: RunCheck(checks[i], env, config, probe, connected).None?
  }

  const EnvironmentLabel: string := "❌ Environment Validation Failed: "
  const ConnectionLabel: string := "❌ Connection Validation Failed: "
  const GenericLabel: string := "❌ Startup Check Failed: "

  /** `s` begins with `p`. */
  predicate StartsWith(s: string, p: string)
  {
    |p| <= |s| && s[..|p|] == p
  }

  /** The line the first matching handler prints: the handlers are tried in order. */
  function Report(e: Exc): string
  {
    if IsOSError(e) then EnvironmentLabel + Str(e)
    else if e.ConnectionError? then ConnectionLabel + Str(e)
    else GenericLabel + Str(e)
  }

  /**
   * One startup: the checks that ran, the exception the handlers caught (the line
   * printed for it is `Report` of it), the exit status
   * (`None` when the process goes on), and the scheduler outcome (`None` when it was
   * not attempted, `Some(None)` when it started, `Some(Some(e))` when `e` was reported).
   */
  datatype StartupRun = StartupRun(ran: seq<Check>, failure: Option<Exc>, exitCode: Option<int>,
                                   scheduler: Option<Option<Exc>>)

  /**
   * The try block of `startup_events`: the four checks in order, stopping at the first
   * that raises; `err` is what that check raised, `None` when all passed.
   */
  method RunChecks(env: Settings, config: Settings, probe: Probe, connected: bool)
    returns (ran: seq<Check>, err: Option<Exc>)
    ensures 1 <= |ran| <= |AllChecks| && ran == AllChecks[..|ran|]
    ensures Passed(ran[..|ran| - 1], env, config, probe, connected)
    ensures err == RunCheck(ran[|ran| - 1], env, config, probe, connected)
    ensures err.None? ==> ran == AllChecks
  {
    ran := [EnvCheck];
    err := ValidateEnv(env);
    if err.Some? {
      return;
    }
    ran := ran + [ConfigCheck];
    err := ValidateConfiguration(config);
    if err.Some? {
      return;
    }
    ran := ran + [ServicesCheck];
    err := CheckThirdPartyServices(env, config, probe);
    if err.Some? {
      return;
    }
    ran := ran + [DbCheck];
    err := ValidateDbConnection(connected);
  }

  /** `startup_events`. */
  method StartupEvents(env: Settings, config: Settings, probe: Probe, connected: bool, fault: Option<string>)
    returns (s: StartupRun)
    ensures 1 <= |s.ran| <= |AllChecks| && s.ran == AllChecks[..|s.ran|]
    ensures Passed(s.ran[..|s.ran| - 1], env, config, probe, connected)
    ensures var last := RunCheck(s.ran[|s.ran| - 1], env, config, probe, connected);
            && (s.exitCode.Some? <==> last.Some?)
            && (last.Some? ==> s.exitCode == Some(1) && s.failure == last && s.scheduler.None?)
    ensures s.exitCode.None? ==>
              && s.ran == AllChecks && s.failure.None?
              && s.scheduler == Some(StartScheduler(config, fault))
  {
    var ran, err := RunChecks(env, config, probe, connected);
    if err.Some? {
      return StartupRun(ran, err, Some(1), None);
    }
    var started := StartScheduler(config, fault);
    return StartupRun(ran, None, None, Some(started));
  }

  /** The filter keeps exactly the unset names, in their order. */
  lemma {:induction false} MissingFromFacts(names: seq<string>, m: Settings)
    ensures forall v :: v in MissingFrom(names, m) <==> v in names && Unset(m, v)
    ensures Subsequence(MissingFrom(names, m), names)
    decreases |names|
  {
    if names != [] {
      MissingFromFacts(names[1..], m);
      assert names == [names[0]] + names[1..];
      var rest := MissingFrom(names[1..], m);
      if Unset(m, names[0]) {
        assert ([names[0]] + rest)[1..] == rest;
      } else {
        assert MissingFrom(names, m) == rest;
        if rest != [] {
          assert Subsequence(rest, names[1..]);
        }
      }
    }
  }

  /** Every element of a joined list occurs in the joined string. */
  lemma {:induction false} JoinContains(xs: seq<string>, sep: string)
    ensures forall i | 0 <= i < |xs| :: Contains(Join(xs, sep), xs[i])
    decreases |xs|
  {
    if |xs| > 1 {
      JoinContains(xs[1..], sep);
      var j := Join(xs, sep);
      var head := xs[0] + sep;
      assert j == head + Join(xs[1..], sep);
      assert OccursAt(j, xs[0], 0);
      forall i | 1 <= i < |xs| ensures Contains(j, xs[i]) {
        assert xs[i] == xs[1..][i - 1];
        var k :| OccursAt(Join(xs[1..], sep), xs[i], k);
        assert OccursAt(j, xs[i], |head| + k);
      }
    } else if |xs| == 1 {
      assert OccursAt(Join(xs, sep), xs[0], 0);
    }
  }

  /** `t` occurring in `s` occurs in `p + s`. */
  lemma ContainsAfterPrefix(p: string, s: string, t: string)
    requires Contains(s, t)
    ensures Contains(p + s, t)
  {
    var k :| OccursAt(s, t, k);
    assert OccursAt(p + s, t, |p| + k);
  }

  /**
   * The environment check raises exactly when a required variable is unset or empty;
   * it raises an OSError whose message names every such variable.
   */
  lemma ValidateEnvCases(env: Settings)
    ensures ValidateEnv(env).Some? <==> exists v :: v in RequiredEnvVars && Unset(env, v)
    ensures ValidateEnv(env).Some? ==>
              && IsOSError(ValidateEnv(env).value)
              && forall v | v in RequiredEnvVars && Unset(env, v) :: Contains(Str(ValidateEnv(env).value), v)
  {
    var missing := MissingFrom(RequiredEnvVars, env);
    MissingFromFacts(RequiredEnvVars, env);
    if missing != [] {
      assert missing[0] in missing;
      JoinContains(missing, ", ");
      forall v | v in RequiredEnvVars && Unset(env, v) ensures Contains(EnvPrefix + Join(missing, ", "), v) {
        var i :| 0 <= i < |missing| && missing[i] == v;
        ContainsAfterPrefix(EnvPrefix, Join(missing, ", "), v);
      }
    }
  }

  /**
   * The configuration check raises exactly when a required key is absent or empty;
   * it raises an OSError whose message names every such key.
   */
  lemma ValidateConfigurationCases(config: Settings)
    ensures ValidateConfiguration(config).Some? <==> exists v :: v in RequiredConfigVars && Unset(config, v)
    ensures ValidateConfiguration(config).Some? ==>
              && IsOSError(ValidateConfiguration(config).value)
              && forall v | v in RequiredConfigVars && Unset(config, v) ::
                   Contains(Str(ValidateConfiguration(config).value), v)
  {
    var missing := MissingFrom(RequiredConfigVars, config);
    MissingFromFacts(RequiredConfigVars, config);
    if missing != [] {
      assert missing[0] in missing;
      JoinContains(missing, ", ");
      forall v | v in RequiredConfigVars && Unset(config, v) ensures Contains(ConfigPrefix + Join(missing, ", "), v) {
        var i :| 0 <= i < |missing| && missing[i] == v;
        ContainsAfterPrefix(ConfigPrefix, Join(missing, ", "), v);
      }
    }
  }

  /**
   * The guards fire before the request: with the key or the base URL unset the check
   * raises a ValueError whatever the network would have answered.
   */
  lemma GuardsBeforeProbe(env: Settings, config: Settings, p1: Probe, p2: Probe)
    requires Unset(env, "FINNHUB_API_KEY") || Unset(config, "FINNHUB_API_BASE_URL")
    ensures CheckThirdPartyServices(env, config, p1) == CheckThirdPartyServices(env, config, p2)
    ensures CheckThirdPartyServices(env, config, p1).Some? && CheckThirdPartyServices(env, config, p1).value.ValueError?
  {
  }

  /**
   * Once both guards pass, the API check passes exactly on a 200 answer. A timeout or
   * a refused connection raises a ConnectionError, which the environment handler
   * reports; any other answer or failure surfaces as a plain Exception, which the
   * generic handler reports.
   */
  lemma ProbeOutcomes(env: Settings, config: Settings, probe: Probe)
    requires !Unset(env, "FINNHUB_API_KEY") && !Unset(config, "FINNHUB_API_BASE_URL")
    ensures var r := CheckThirdPartyServices(env, config, probe);
            && (r.None? <==> probe.Responded? && probe.status == 200)
            && (probe.TimedOut? || probe.ConnectFailed? ==>
                  r.Some? && r.value.ConnectionError? && StartsWith(Report(r.value), EnvironmentLabel))
            && ((probe.Responded? && probe.status != 200) || probe.OtherFailure? ==>
                  r.Some? && r.value.Exception? && StartsWith(Report(r.value), GenericLabel))
  {
    var r := CheckThirdPartyServices(env, config, probe);
    if r.Some? {
      var line := Report(r.value);
      if IsOSError(r.value) {
        assert line[..|EnvironmentLabel|] == EnvironmentLabel;
      } else if r.value.Exception? {
        assert line[..|GenericLabel|] == GenericLabel;
      }
    }
  }

  /**
   * The database check raises exactly when the probe reports no connection, and that
   * ConnectionError is reported by the environment handler.
   */
  lemma DbCheckCases(connected: bool)
    ensures var r := ValidateDbConnection(connected);
            && (r.None? <==> connected)
            && (r.Some? ==> r.value.ConnectionError? && StartsWith(Report(r.value), EnvironmentLabel))
  {
    var r := ValidateDbConnection(connected);
    if r.Some? {
      assert Report(r.value)[..|EnvironmentLabel|] == EnvironmentLabel;
    }
  }

  /**
   * The connection handler is never reached: whatever a check raises, the line printed
   * does not start with its label. Every ConnectionError (a timeout, a refused
   * connection, an unreachable database) is caught as an EnvironmentError first, and a
   * non-200 answer surfaces as a plain Exception.
   */
  lemma ConnectionHandlerUnreachable(e: Exc)
    ensures !StartsWith(Report(e), ConnectionLabel)
  {
    var r := Report(e);
    if IsOSError(e) {
      assert r == EnvironmentLabel + Str(e);
      assert r[2] == EnvironmentLabel[2];
    } else {
      assert r == GenericLabel + Str(e);
      assert r[2] == GenericLabel[2];
    }
    assert |r| > 2 && r[2] != ConnectionLabel[2];
  }

  /** With the configuration as shipped, the configuration check passes and the scheduler never starts. */
  lemma ShippedConfigFacts(fault: Option<string>)
    ensures ValidateConfiguration(ShippedConfig).None?
    ensures StartScheduler(ShippedConfig, fault) == Some(KeyError("TIMEZONE"))
  {
  }
}
