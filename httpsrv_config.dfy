/** Settings of the HTTP and HTTPS servers. */
module HttpsrvConfig {
  import opened Common

  /** `http.DefaultMaxHeaderBytes`: 1 MiB. */
  const DefaultMaxHeaderBytes := 1024 * 1024

  /** The fields taken over by `http.Server`, plus the grace period for
      shutdown. */
  datatype Config = Config(
    addr: string,
    readTimeout: Duration,
    readHeaderTimeout: Duration,
    writeTimeout: Duration,
    idleTimeout: Duration,
    shutdownTimeout: Duration,
    maxHeaderBytes: int)

  /** The HTTPS server's settings: the plain ones plus the key pair files. */
  datatype ConfigTLS = ConfigTLS(config: Config, keyFile: string, certFile: string)

  /** The defaults: port 8080, no timeouts, five seconds to shut down, the
      standard header limit. */
  function NewConfig(): Config {
    Config(":8080", 0, 0, 0, 0, 5 * Second, DefaultMaxHeaderBytes)
  }

  /** Every plain configuration is accepted. */
  function Validate(c: Config): (err: Option<Error>)
    ensures err.None?
  {
    None
  }

  /** The HTTPS defaults: the plain defaults on port 8443, with no key pair. */
  function NewConfigTLS(): (c: ConfigTLS)
    ensures c.config == NewConfig().(addr := ":8443")
    ensures c.keyFile == "" && c.certFile == ""
  {
    ConfigTLS(NewConfig().(addr := ":8443"), "", "")
  }

  /** An HTTPS configuration needs both files; the key file is checked
      first. */
  function ValidateTLS(c: ConfigTLS): (err: Option<Error>)
    ensures err.None? <==> c.keyFile != "" && c.certFile != ""
    ensures c.keyFile == "" ==> err == Some(TlsKeyFileMissing)
    ensures c.keyFile != "" && c.certFile == "" ==> err == Some(TlsCertFileMissing)
  {
    if c.keyFile == "" then Some(TlsKeyFileMissing)
    else if c.certFile == "" then Some(TlsCertFileMissing)
    else None
  }

  /** The plain defaults, and the HTTPS defaults failing validation for want
      of a key file. */
  lemma Defaults()
    ensures NewConfig().addr == ":8080"
    ensures NewConfig().readTimeout == NewConfig().readHeaderTimeout == NewConfig().writeTimeout == NewConfig().idleTimeout == 0
    ensures NewConfig().shutdownTimeout == 5 * Second
    ensures NewConfig().maxHeaderBytes == 1_048_576
    ensures ValidateTLS(NewConfigTLS()) == Some(TlsKeyFileMissing)
  {
  }
}
