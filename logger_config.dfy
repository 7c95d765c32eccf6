/** Settings of the structured logger. */
module LoggerConfig {
  import opened Common

  datatype Config = Config(
    level: string,      // logging level name
    timestamp: bool,    // show a timestamp
    caller: bool,       // show the caller's file and line
    stack: bool,        // show stack information
    console: bool,      // human-friendly console output
    noColor: bool,      // no colours on the console
    file: string)       // "stdout" or "stderr"

  /** The level names the logger accepts, spelled exactly so. */
  const LevelNames: set<string> := {"debug", "info", "warn", "error", "fatal", "panic", "no", "disabled", "trace"}

  /** The defaults. */
  function NewConfig(): Config {
    Config("error", true, true, false, false, false, "stderr")
  }

  /** A configuration is valid exactly when its level is one of the nine
      names. */
  function Validate(c: Config): (err: Option<Error>)
    ensures err.None? <==> c.level in LevelNames
    ensures err.Some? ==> err.value == InvalidLogLevel(c.level)
  {
    match c.level
    case "debug" => None
    case "info" => None
    case "warn" => None
    case "error" => None
    case "fatal" => None
    case "panic" => None
    case "no" => None
    case "disabled" => None
    case "trace" => None
    case _ => Some(InvalidLogLevel(c.level))
  }

  /** Level names are case-sensitive. */
  lemma LevelsAreCaseSensitive(c: Config)
    requires c.level == "INFO" || c.level == "Debug"
    ensures Validate(c) == Some(InvalidLogLevel(c.level))
  {
  }

  /** The defaults log errors and above to stderr with timestamp and caller,
      and they are valid. */
  lemma DefaultConfigIsValid()
    ensures NewConfig().level == "error" && NewConfig().file == "stderr"
    ensures NewConfig().timestamp && NewConfig().caller
    ensures !NewConfig().stack && !NewConfig().console && !NewConfig().noColor
    ensures Validate(NewConfig()).None?
  {
  }
}
