/** Vocabulary shared by every package of the key server: optional values,
    results, byte strings, instants, durations and the errors the server
    reports. */
module Common {

  /** A Go value that may be nil (a nil slice, map or interface). */
  datatype Option<+T> = None | Some(value: T)

  /** A Go `(value, error)` pair where exactly one side is meaningful. */
  datatype Result<+T, +E> = Ok(value: T) | Err(error: E)

  type Bytes = seq<bv8>

  /** A `time.Time`, as the number of nanoseconds since Go's zero time
      (January 1 of year 1, UTC). `Time.Equal` compares instants, which is
      equality here. */
  type Time = int

  /** The zero `time.Time{}`. */
  const ZeroTime: Time := 0

  /** A `time.Duration`: a count of nanoseconds. */
  type Duration = int

  const Second: Duration := 1_000_000_000
  const Hour: Duration := 3600 * Second

  /** Every error the modelled code creates, one constructor per message. */
  datatype Error =
    | PemDecodeFailed                             // no PEM block in a key file
    | WrongKeyType(blockType: string)             // a PEM block that is not a public key
    | PkixParseFailed(cause: string)              // payload is not SubjectPublicKeyInfo
    | JwkCreateFailed(cause: string)              // the JWK library refused the key
    | ReadFailed(cause: string)                   // a key file could not be read
    | MetadataFailed(cause: string)               // the key directory could not be listed
    | KeyFileFailed(file: string, inner: Error)   // loading one key file failed
    | ScanFailed(cause: string)                   // a watcher event carrying an error
    | KeysNotLoaded                               // no key set has been loaded yet
    | NoKeysLoaded                                // the response cache before its first fill
    | GettingKeys(inner: Error)                   // the key set could not be obtained
    | MarshalFailed(cause: string)                // the key set could not be encoded
    | KeyDirRequired                              // keyloader config without a directory
    | InvalidLogLevel(level: string)
    | InvalidLogFile(file: string)
    | TlsKeyFileMissing
    | TlsCertFileMissing
    | FlagInBothPlaces(flag: string)              // a flag on the command line and in the environment
    | InvalidEnvValue(varName: string, cause: string)
}
