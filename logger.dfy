/** Building the logger from its configuration, as a description of the
    logger the zerolog library would be asked for. */
module Logger {
  import opened Common
  import LoggerConfig

  datatype Level =
    | TraceLevel | DebugLevel | InfoLevel | WarnLevel | ErrorLevel
    | FatalLevel | PanicLevel | NoLevel | Disabled

  datatype Output = Stdout | Stderr

  /** The human-friendly console writer and the file it writes to. */
  datatype ConsoleWriter = ConsoleWriter(out: Output, noColor: bool)

  /** A configured logger: where it writes, its minimum level, which fields
      it adds, and the console writer if one replaces the JSON output. */
  datatype LoggerDesc = LoggerDesc(
    out: Output,
    level: Level,
    timestamp: bool,
    caller: bool,
    stack: bool,
    console: Option<ConsoleWriter>)

  /** The level a valid level name selects. */
  function LevelOf(name: string): Level
    requires name in LoggerConfig.LevelNames
  {
    match name
    case "debug" => DebugLevel
    case "info" => InfoLevel
    case "warn" => WarnLevel
    case "error" => ErrorLevel
    case "fatal" => FatalLevel
    case "panic" => PanicLevel
    case "no" => NoLevel
    case "disabled" => Disabled
    case "trace" => TraceLevel
  }

  /** Distinct level names select distinct levels, so every level is reached
      by exactly one name. */
  lemma LevelOfIsInjective(a: string, b: string)
    requires a in LoggerConfig.LevelNames && b in LoggerConfig.LevelNames
    requires LevelOf(a) == LevelOf(b)
    ensures a == b
  {
  }

  /** The logger a valid configuration asks for, writing to `out`. */
  function Configure(c: LoggerConfig.Config, out: Output): LoggerDesc
    requires c.level in LoggerConfig.LevelNames
  {
    var console := if c.console then Some(ConsoleWriter(out, c.noColor)) else None;
    LoggerDesc(out, LevelOf(c.level), c.timestamp, c.caller, c.stack, console)
  }

  /** Go's `logger.New`: validation first, then the choice of file, then the
      level and the optional fields. */
  function New(c: LoggerConfig.Config): (r: Result<LoggerDesc, Error>)
    ensures LoggerConfig.Validate(c).Some? ==> r == Err(LoggerConfig.Validate(c).value)
    ensures LoggerConfig.Validate(c).None? && c.file != "stdout" && c.file != "stderr" ==>
              r == Err(InvalidLogFile(c.file))
    ensures r.Ok? <==> LoggerConfig.Validate(c).None? && (c.file == "stdout" || c.file == "stderr")
    ensures r.Ok? ==>
              && r.value.out == (if c.file == "stdout" then Stdout else Stderr)
              && c.level in LoggerConfig.LevelNames && r.value.level == LevelOf(c.level)
              && r.value.timestamp == c.timestamp && r.value.caller == c.caller && r.value.stack == c.stack
              && (r.value.console.Some? <==> c.console)
              && (c.console ==> r.value.console.value == ConsoleWriter(r.value.out, c.noColor))
  {
    if LoggerConfig.Validate(c).Some? then Err(LoggerConfig.Validate(c).value)
    else
      match c.file
      case "stdout" => Ok(Configure(c, Stdout))
      case "stderr" => Ok(Configure(c, Stderr))
      case _ => Err(InvalidLogFile(c.file))
  }

  /** The default configuration yields a logger writing errors to stderr. */
  lemma DefaultLoggerWritesToStderr()
    ensures New(LoggerConfig.NewConfig()).Ok?
    ensures New(LoggerConfig.NewConfig()).value.out == Stderr
    ensures New(LoggerConfig.NewConfig()).value.level == ErrorLevel
  {
  }
}
