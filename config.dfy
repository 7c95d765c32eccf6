/** The program configuration: the defaults of every package, the names of
    the environment variables that mirror the command-line flags, and how
    their values are applied. */
module Config {
  import opened Common
  import Text
  import LoggerConfig
  import KeyloaderConfig
  import HttpsrvConfig
  import HttphandlerConfig

  const EnvVarPrefix := "GO_JWKS_SERVER_"
  const FallbackExampleFlag := "example-flag"

  datatype Config = Config(
    logger: LoggerConfig.Config,
    keyloader: KeyloaderConfig.Config,
    httpsrv: HttpsrvConfig.Config,
    httpTlsServ: HttpsrvConfig.ConfigTLS,
    httphandler: HttphandlerConfig.Config,
    printConfig: bool,
    enableHttp: bool,
    enableHttps: bool)

  /** The configuration before flags and environment are applied: each
      package's defaults, plain HTTP on, HTTPS off. */
  function DefaultConfig(): (c: Config)
    ensures c.enableHttp && !c.enableHttps && !c.printConfig
    ensures LoggerConfig.Validate(c.logger).None?
    ensures KeyloaderConfig.Validate(c.keyloader).None?
    ensures HttpsrvConfig.ValidateTLS(c.httpTlsServ).Some?
  {
    Config(LoggerConfig.NewConfig(), KeyloaderConfig.NewConfig(), HttpsrvConfig.NewConfig(),
           HttpsrvConfig.NewConfigTLS(), HttphandlerConfig.NewConfig(), false, true, false)
  }

  /** The environment variable for a flag: the prefix, then the flag name
      upper-cased with every dash turned into an underscore. */
  function EnvVarName(flagName: string): (v: string)
    ensures |v| == |EnvVarPrefix| + |flagName|
    ensures v[..|EnvVarPrefix|] == EnvVarPrefix
    ensures forall i :: 0 <= i < |flagName| ==>
              v[|EnvVarPrefix| + i] == if flagName[i] == '-' then '_' else Text.UpperChar(flagName[i])
    ensures '-' !in v
  {
    EnvVarPrefix + Text.ReplaceChar(Text.ToUpper(flagName), '-', '_')
  }

  lemma EnvVarNameExample()
    ensures EnvVarName("log-level") == "GO_JWKS_SERVER_LOG_LEVEL"
    ensures EnvVarName("key-dir") == "GO_JWKS_SERVER_KEY_DIR"
  {
    assert Text.ReplaceChar(Text.ToUpper("log-level"), '-', '_') == "LOG_LEVEL";
    assert Text.ReplaceChar(Text.ToUpper("key-dir"), '-', '_') == "KEY_DIR";
  }

  /** Setting flags from the environment, in visiting order. `setValue` is the
      flag's `Value.Set`: the error it reports for a text, if any. */
  function ApplyEnv(flags: seq<string>, provided: set<string>, env: map<string, string>,
                    setValue: (string, string) -> Option<string>, taken: map<string, string>)
    : (map<string, string>, Option<Error>)
    decreases |flags|
  {
    if flags == [] then (taken, None)
    else
      var name := flags[0];
      var varName := EnvVarName(name);
      if varName !in env then ApplyEnv(flags[1..], provided, env, setValue, taken)
      else if name in provided then (taken, Some(FlagInBothPlaces(name)))
      else if setValue(name, env[varName]).Some? then (taken, Some(InvalidEnvValue(varName, setValue(name, env[varName]).value)))
      else ApplyEnv(flags[1..], provided, env, setValue, taken[name := env[varName]])
  }

  /** Whether a flag can be taken from the environment without error. */
  predicate EnvAcceptable(name: string, provided: set<string>, env: map<string, string>,
                          setValue: (string, string) -> Option<string>)
  {
    EnvVarName(name) in env ==> name !in provided && setValue(name, env[EnvVarName(name)]).None?
  }

  /** Without error, every flag that has an environment variable was given
      that variable's value, and no other flag was touched. */
  lemma {:induction false} ApplyEnvSucceeds(flags: seq<string>, provided: set<string>, env: map<string, string>,
                                            setValue: (string, string) -> Option<string>, taken: map<string, string>)
    requires ApplyEnv(flags, provided, env, setValue, taken).1.None?
    ensures forall n | n in flags :: EnvAcceptable(n, provided, env, setValue)
    ensures var result := ApplyEnv(flags, provided, env, setValue, taken).0;
            && (forall n | n in flags && EnvVarName(n) in env :: n in result && result[n] == env[EnvVarName(n)])
            && (forall n | n in result :: n in taken || (n in flags && EnvVarName(n) in env))
            && (forall n | n in taken && n !in flags :: n in result && result[n] == taken[n])
    decreases |flags|
  {
    if flags != [] {
      var name := flags[0];
      var varName := EnvVarName(name);
      var next := if varName in env then taken[name := env[varName]] else taken;
      ApplyEnvSucceeds(flags[1..], provided, env, setValue, next);
      assert forall n :: n in flags <==> n == name || n in flags[1..];
      var result := ApplyEnv(flags, provided, env, setValue, taken).0;
      if varName in env && name in flags[1..] {
        assert result[name] == env[varName];
      }
    }
  }

  /** Whatever the outcome, only flags that have an environment variable are
      set, each to that variable's value. */
  lemma {:induction false} ApplyEnvTouchesOnlyEnvFlags(flags: seq<string>, provided: set<string>, env: map<string, string>,
                                                       setValue: (string, string) -> Option<string>, taken: map<string, string>)
    ensures var result := ApplyEnv(flags, provided, env, setValue, taken).0;
            && (forall n | n in result ::
                  || (n in taken && result[n] == taken[n])
                  || (n in flags && EnvVarName(n) in env && result[n] == env[EnvVarName(n)]))
            && (forall n | n in taken && (n !in flags || EnvVarName(n) !in env) :: n in result && result[n] == taken[n])
    decreases |flags|
  {
    if flags != [] {
      var name := flags[0];
      var varName := EnvVarName(name);
      var next := if varName in env then taken[name := env[varName]] else taken;
      ApplyEnvTouchesOnlyEnvFlags(flags[1..], provided, env, setValue, next);
      assert forall n :: n in flags <==> n == name || n in flags[1..];
    }
  }

  /** An error names a flag given both ways, or an environment value the
      flag refused; every earlier flag was acceptable and flags from that
      one on are not set. */
  lemma {:induction false} ApplyEnvFails(flags: seq<string>, provided: set<string>, env: map<string, string>,
                                         setValue: (string, string) -> Option<string>, taken: map<string, string>)
    requires ApplyEnv(flags, provided, env, setValue, taken).1.Some?
    ensures exists k :: 0 <= k < |flags|
              && (forall j :: 0 <= j < k ==> EnvAcceptable(flags[j], provided, env, setValue))
              && EnvVarName(flags[k]) in env
              && ApplyEnv(flags, provided, env, setValue, taken) == ApplyEnv(flags[..k], provided, env, setValue, taken).(1 := ApplyEnv(flags, provided, env, setValue, taken).1)
              && (if flags[k] in provided
                  then ApplyEnv(flags, provided, env, setValue, taken).1 == Some(FlagInBothPlaces(flags[k]))
                  else setValue(flags[k], env[EnvVarName(flags[k])]).Some?
                       && ApplyEnv(flags, provided, env, setValue, taken).1 ==
                            Some(InvalidEnvValue(EnvVarName(flags[k]), setValue(flags[k], env[EnvVarName(flags[k])]).value)))
    decreases |flags|
  {
    var name := flags[0];
    var varName := EnvVarName(name);
    var r := ApplyEnv(flags, provided, env, setValue, taken);
    assert flags[..0] == [];
    if varName !in env || (name !in provided && setValue(name, env[varName]).None?) {
      var next := if varName in env then taken[name := env[varName]] else taken;
      ApplyEnvFails(flags[1..], provided, env, setValue, next);
      var k :| 0 <= k < |flags[1..]|
              && (forall j :: 0 <= j < k ==> EnvAcceptable(flags[1..][j], provided, env, setValue))
              && EnvVarName(flags[1..][k]) in env
              && ApplyEnv(flags[1..], provided, env, setValue, next) == ApplyEnv(flags[1..][..k], provided, env, setValue, next).(1 := ApplyEnv(flags[1..], provided, env, setValue, next).1)
              && (if flags[1..][k] in provided
                  then ApplyEnv(flags[1..], provided, env, setValue, next).1 == Some(FlagInBothPlaces(flags[1..][k]))
                  else setValue(flags[1..][k], env[EnvVarName(flags[1..][k])]).Some?
                       && ApplyEnv(flags[1..], provided, env, setValue, next).1 ==
                            Some(InvalidEnvValue(EnvVarName(flags[1..][k]), setValue(flags[1..][k], env[EnvVarName(flags[1..][k])]).value)));
      assert flags[k + 1] == flags[1..][k];
      assert flags[..k + 1][0] == name && flags[..k + 1][1..] == flags[1..][..k];
      assert ApplyEnv(flags[..k + 1], provided, env, setValue, taken) == ApplyEnv(flags[1..][..k], provided, env, setValue, next);
      forall j | 0 <= j < k + 1 ensures EnvAcceptable(flags[j], provided, env, setValue) {
        if j > 0 { assert flags[j] == flags[1..][j - 1]; }
      }
    }
  }

  /** Once an error is found, later flags are neither examined nor set. */
  lemma {:induction false} ApplyEnvStopsAtError(pre: seq<string>, rest: seq<string>, provided: set<string>,
                                                env: map<string, string>, setValue: (string, string) -> Option<string>,
                                                taken: map<string, string>)
    requires ApplyEnv(pre, provided, env, setValue, taken).1.Some?
    ensures ApplyEnv(pre + rest, provided, env, setValue, taken) == ApplyEnv(pre, provided, env, setValue, taken)
    decreases |pre|
  {
    assert (pre + rest)[0] == pre[0] && (pre + rest)[1..] == pre[1..] + rest;
    var name := pre[0];
    var varName := EnvVarName(name);
    if varName !in env {
      ApplyEnvStopsAtError(pre[1..], rest, provided, env, setValue, taken);
    } else if name !in provided && setValue(name, env[varName]).None? {
      ApplyEnvStopsAtError(pre[1..], rest, provided, env, setValue, taken[name := env[varName]]);
    }
  }

  /** Go's `setFromEnv`: visits every flag in order, and once an error is
      recorded skips the remaining ones. Returns the values taken from the
      environment, by flag name, and the error. */
  method SetFromEnv(flags: seq<string>, provided: set<string>, env: map<string, string>,
                    setValue: (string, string) -> Option<string>)
    returns (taken: map<string, string>, err: Option<Error>)
    ensures (taken, err) == ApplyEnv(flags, provided, env, setValue, map[])
  {
    taken, err := map[], None;
    for i := 0 to |flags|
      invariant ApplyEnv(flags, provided, env, setValue, map[]) ==
                  if err.Some? then (taken, err) else ApplyEnv(flags[i..], provided, env, setValue, taken)
    {
      if err.Some? {
        continue;
      }
      var name := flags[i];
      var varName := EnvVarName(name);
      if varName in env {
        var val := env[varName];
        if name in provided {
          err := Some(FlagInBothPlaces(name));
          continue;
        }
        var errSet := setValue(name, val);
        if errSet.Some? {
          err := Some(InvalidEnvValue(varName, errSet.value));
          continue;
        }
        taken := taken[name := val];
      }
    }
    assert flags[|flags|..] == [];
  }

  /** The flag shown in the usage example: the first flag with a non-empty
      name, or a placeholder when there is none; with its variable name. */
  method UsageExample(flags: seq<string>) returns (exampleFlag: string, exampleEnvVar: string)
    ensures exampleFlag != ""
    ensures exampleEnvVar == EnvVarName(exampleFlag)
    ensures (forall i :: 0 <= i < |flags| ==> flags[i] == "") ==> exampleFlag == FallbackExampleFlag
    ensures (exists i :: 0 <= i < |flags| && flags[i] != "") ==>
              exists i :: 0 <= i < |flags| && flags[i] == exampleFlag && forall j :: 0 <= j < i ==> flags[j] == ""
  {
    exampleFlag := "";
    for i := 0 to |flags|
      invariant exampleFlag == "" <==> forall j :: 0 <= j < i ==> flags[j] == ""
      invariant exampleFlag != "" ==>
                  exists k :: 0 <= k < i && flags[k] == exampleFlag && forall j :: 0 <= j < k ==> flags[j] == ""
    {
      if exampleFlag == "" {
        exampleFlag := flags[i];
      }
    }
    if exampleFlag == "" {
      exampleFlag := FallbackExampleFlag;
    }
    exampleEnvVar := EnvVarName(exampleFlag);
  }
}
