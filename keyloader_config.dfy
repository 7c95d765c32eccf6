/** Settings of the key loader: where the keys live, how often the directory
    is polled and whether a failed load is fatal. */
module KeyloaderConfig {
  import opened Common

  datatype Config = Config(
    dir: string,              // the directory to load the keys from
    watchInterval: Duration,  // polling period; zero or less turns watching off
    failOnError: bool)        // return load errors instead of only logging them

  /** The defaults. */
  function NewConfig(): Config {
    Config("./keys", 1 * Second, false)
  }

  /** A configuration is usable exactly when it names a directory. */
  function Validate(c: Config): (err: Option<Error>)
    ensures err.Some? <==> c.dir == ""
    ensures err.Some? ==> err.value == KeyDirRequired
  {
    if c.dir == "" then Some(KeyDirRequired) else None
  }

  /** Whether the directory is watched for changes. */
  function WatchOn(c: Config): (on: bool)
    ensures on <==> c.watchInterval > 0
  {
    c.watchInterval > 0
  }

  /** The defaults read keys from ./keys, poll every second, only log load
      failures, pass validation and switch watching on. */
  lemma DefaultConfigIsValidAndWatches()
    ensures NewConfig() == Config("./keys", Second, false)
    ensures Validate(NewConfig()).None?
    ensures WatchOn(NewConfig())
  {
  }
}
