/** Settings of the keys endpoint. */
module HttphandlerConfig {
  import opened Common

  /** `cacheMaxAge` is the max-age advertised to clients; zero or less
      advertises none. */
  datatype Config = Config(cacheMaxAge: Duration)

  /** The default advertises one hour. */
  function NewConfig(): (c: Config)
    ensures c.cacheMaxAge == Hour
    ensures c.cacheMaxAge > 0 && c.cacheMaxAge / Second == 3600
  {
    Config(Hour)
  }
}
