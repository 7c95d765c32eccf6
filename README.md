# go-jwks-server in Dafny

go-jwks-server reads public keys from a directory of PEM files and serves them as a JSON Web Key Set (RFC 7517) at `GET /keys`. This project models that behaviour in Dafny and proves properties of the model.

The model covers these parts:

- **Key-set building** (`KeyloaderKeys`, from `internal/keyloader/keys.go`).
  - Each key file is decoded in a fixed order: PEM decode, then the block type, then PKIX parse, then JWK construction.
  - Each key ID is derived from its file name.
  - The whole set is built all or nothing: the first file that fails aborts the build.
- **The key store** (`Keyloader`, from `internal/keyloader/keyloader.go`).
  - It holds the last key set that loaded and that set's load time.
  - It reloads under a fail-on-error policy, once on demand or on each event of a directory watcher.
- **The keys endpoint** (`Httphandler`, from `internal/httphandler/httphandler.go`).
  - It validates the request: method first, then path.
  - It builds the JSON document of the current key set.
  - It caches that document, keyed by the key set's load time.
  - It derives the response from the cached result.
- **Configuration.**
  - The defaults and validation of the key loader, logger, HTTP, TLS and handler settings (`KeyloaderConfig`, `LoggerConfig`, `HttpsrvConfig`, `HttphandlerConfig`).
  - How a logger is derived from its settings (`Logger`).
  - Environment variable names, and how environment values are applied to flags (`Config`).

Three of the Go operations are imperative, and their models are too:

- `loadKeys` becomes the method `KeyloaderKeys.LoadKeys`.
- `Keyloader.LoadKeys` and `LoadKeysWatch` become methods of the class `Keyloader.Keyloader`.
- `setFromEnv` becomes the method `Config.SetFromEnv`.

The cache closure of `getKeysJsonCached` becomes the class `Httphandler.KeysJsonCache`.

Each method is proved equal to a specification function, and the properties are proved as lemmas about that function:

| method | specification function |
|---|---|
| `KeyloaderKeys.LoadKeys` | `BuildKeySet` |
| `Keyloader.Keyloader.LoadKeys` | `Reload` |
| `Keyloader.Keyloader.LoadKeysWatch` | `Watch` |
| `Httphandler.KeysJsonCache.Get` | `Lookup` |
| `Config.SetFromEnv` | `ApplyEnv` |

Foreign code and the environment are parameters of the model:

- **Parsers.** The PEM decoder, the PKIX parser, JWK construction and the key set's refusal of an added key are function-valued fields of `KeyloaderKeys.Primitives`.
- **The directory.** At the moment of a load, the directory is a `DirState` value: the file listing (or its error) and each file's contents (or read error).
- **The watcher.** Its output is a finite sequence of `Event`s.
- **The clock.** The time of a successful reload is an argument.
- **JSON marshalling.** It is a function from a key set to bytes or an error.
- **Flags.** `Value.Set` of a flag is a function from a flag name and a text to an optional error message.
- **Time.** A time is a number of nanoseconds relative to Go's zero time.

Three facts about the code shape the model:

- Files are processed in the order the listing gives them, and the loader applies no "first key wins" rule of its own. Whether the key set refuses a key is left to the `refusesAdd` primitive.
- The suffix stripped from key IDs is always `.pub`.
- Cache versions are the wall-clock times at which key sets were loaded.

## Model

| member | source | states |
|---|---|---|
| `KeyloaderKeys.LoadPublicKey` | internal/keyloader/keys.go:16-37 | Each stage has its own failure, checked in order. An undecodable PEM input fails with the decode error. A block whose type is not exactly "PUBLIC KEY" fails with that type. A right-typed block whose PKIX parse fails gives the parse error. A parsed key whose JWK construction fails gives the construction error. Otherwise the result is the constructed JWK. Success happens exactly when every stage succeeded. |
| `KeyloaderKeys.DecodeIsCheckedFirst` | internal/keyloader/keys.go:17-20 | When decoding fails, the result is the decode error whatever the later stages would do. |
| `KeyloaderKeys.TypeIsCheckedBeforeParsing` | internal/keyloader/keys.go:22-24 | A wrong block type is reported without consulting the parser or JWK construction. |
| `KeyloaderKeys.LoadPublicKeyFromFile` | internal/keyloader/keys.go:39-46 | A read error is returned as such. Otherwise the result is exactly that of LoadPublicKey on the file's bytes. |
| `KeyloaderKeys.KeyId` | internal/keyloader/keys.go:66-69 | The key ID is a prefix of the file name. It is 4 characters shorter exactly when the lower-cased name ends in ".pub", and it is the whole name otherwise. |
| `KeyloaderKeys.KeyIdExamples` | internal/keyloader/keys.go:66-69 | The mapping "A.PUB"→"A", "k.Pub"→"k", "x.pub.pub"→"x.pub" (stripped once), "k"→"k", "key.pem"→"key.pem". |
| `KeyloaderKeys.BuildFailsAtFirstBadFile` | internal/keyloader/keys.go:58-64 | The loop fails exactly when some file fails to load, and the error is the failure of the first such file, tagged with its name. |
| `KeyloaderKeys.BuildRecordsEveryFile` | internal/keyloader/keys.go:74-80 | On success, every listed file is recorded in `loaded` under its key ID, including files whose key was refused. Earlier entries are kept. |
| `KeyloaderKeys.BuildOffersStampedKeys` | internal/keyloader/keys.go:54-78 | On success, the earlier keys are a prefix of the set. The set grows by at most one key per file. Every new key is the JWK loaded from one listed file, stamped with that file's key ID and use "sig". |
| `KeyloaderKeys.BuildAddsOnlyAcceptedKeys` | internal/keyloader/keys.go:74-78 | On success, the earlier keys are a prefix of the set. Every new key was accepted by the set as it stood when the key was offered, so a refused key never enters the set. |
| `KeyloaderKeys.BuildKeepsEveryKeyWithoutRefusal` | internal/keyloader/keys.go:61-78 | When the set refuses nothing, the new keys are exactly the files' loaded keys, each stamped with its own file's key ID and use "sig", in listing order. |
| `KeyloaderKeys.LoadIsAllOrNothing` | internal/keyloader/keys.go:48-88 | A listing error, or any failing file, gives an error and no set. A success records every listed file under its key ID and holds at most one key per file. Each key is the JWK loaded from a listed file, stamped with that file's key ID and use "sig". Each key was accepted by the keys before it. When the set refuses nothing, the set is exactly the files' stamped keys in listing order. |
| `KeyloaderKeys.LoadKeys` | internal/keyloader/keys.go:48-88 | The loop over the listing, with early return, computes exactly the build result that BuildKeySet specifies. |
| `KeyloaderConfig.Validate` | internal/keyloader/config.go:28-34 | The configuration is refused exactly when the key directory is empty. |
| `KeyloaderConfig.WatchOn` | internal/keyloader/config.go:36-38 | Watching is on exactly when the interval is positive. |
| `KeyloaderConfig.DefaultConfigIsValidAndWatches` | internal/keyloader/config.go:19-26 | The defaults are "./keys", one second and no fail-on-error. They validate and watch. |
| `Keyloader.Reload` | internal/keyloader/keyloader.go:116-134 | A successful load replaces the key set and stamps it with the current time. A failed load keeps the state as it was, and reports the error only under fail-on-error. A loaded key set is never lost. |
| `Keyloader.WatchBestEffortNeverFails` | internal/keyloader/keyloader.go:89-104 | Without fail-on-error, the event loop never returns an error. Scan errors and failed reloads are skipped. The state left is the set and time of the last change that loaded, or the initial state if no change loaded. |
| `Keyloader.WatchWithoutGoodLoadKeepsState` | internal/keyloader/keyloader.go:89-104 | A run that returns no error and sees no change that loads leaves the state as it was. Scan errors and failed reloads change nothing. |
| `Keyloader.WatchPublishesLastGoodLoad` | internal/keyloader/keyloader.go:100-104 | A run that returns no error ends with the key set of its last change that loads, stamped with that change's time. Later failed events leave that set in place. |
| `Keyloader.WatchIgnoresEventsAfterError` | internal/keyloader/keyloader.go:89-104 | Once the loop returns an error, later events change neither the state nor the result. |
| `Keyloader.WatchErrorComesFromOneEvent` | internal/keyloader/keyloader.go:88-104 | An error from the loop implies fail-on-error. The error is that of one event (a scan error or a failing reload), and the run up to that event gives the same outcome. |
| `Keyloader.WatchFailFastStopsAtFirstFailure` | internal/keyloader/keyloader.go:88-104 | Under fail-on-error, the first failing event ends the loop. A failing event is a scan error or a change after which the directory does not load. The loop returns that event's error, in the state that the earlier events left. |
| `Keyloader.WatchFailsIffSomeEventFails` | internal/keyloader/keyloader.go:88-104 | Under fail-on-error, the loop returns an error exactly when some event fails. |
| `Keyloader.WatchKeepsLoadedKeys` | internal/keyloader/keyloader.go:116-134 | Once a key set has been loaded, no sequence of events takes it away, so GetKeys never fails again. |
| `Keyloader.Keyloader.constructor` | internal/keyloader/keyloader.go:37-39 | A new loader holds no key set and the zero time. |
| `Keyloader.Keyloader.GetKeys` | internal/keyloader/keyloader.go:52-61 | The reply is "keys not loaded" with the zero time exactly while no key set is held. Otherwise it is the key set with its load time. |
| `Keyloader.Keyloader.LoadKeys` | internal/keyloader/keyloader.go:116-134 | The new state and the returned error are those of Reload applied to the old state. The class invariant is kept. |
| `Keyloader.Keyloader.LoadKeysWatch` | internal/keyloader/keyloader.go:63-112 | The loop over the events leaves the state and returns the error that Watch gives for the old state. |
| `Keyloader.NewKeyloader` | internal/keyloader/keyloader.go:32-42 | An invalid configuration is refused with its error and no loader. Otherwise a fresh, valid loader with no keys is returned. |
| `Keyloader.LoadTimesAgree` | internal/keyloader/keyloader.go:44-61 | GetKeys and GetKeysLoadTime report the same time in every reachable state. |
| `HttphandlerConfig.NewConfig` | internal/httphandler/config.go:9-13 | The default cache max-age is one hour: positive, and 3600 whole seconds. |
| `Httphandler.GetKeysJson` | internal/httphandler/httphandler.go:54-66 | Success happens exactly when keys are loaded and they marshal. Success carries that JSON and the loader's load time. Any error carries no document and the zero time. No keys gives "getting keys: keys not loaded". |
| `Httphandler.Lookup` | internal/httphandler/httphandler.go:70-96 | A hit happens exactly when the caller's time equals the stored version. A hit leaves the entry unchanged. A miss stores the document, error and load time that the recomputation returned, not the caller's time. The stored pair is always what is served. |
| `Httphandler.FirstLookupRecomputes` | internal/httphandler/httphandler.go:71-79 | The first call misses for any time other than the sentinel. |
| `Httphandler.SentinelIsNotZeroTime` | internal/httphandler/httphandler.go:71 | The sentinel version lies before, and so differs from, the zero time that a loader reports before any load. |
| `Httphandler.RepeatedLookupIsCached` | internal/httphandler/httphandler.go:79-94 | After a miss that stored the caller's time, the next call with that time is a hit serving the same document and error. |
| `Httphandler.ReplyVersionMatchesLoadTime` | internal/httphandler/httphandler.go:54-66 | The recomputed version equals the loader's load time when no keys are loaded or when they marshal. A marshalling error is stored under the zero time. |
| `Httphandler.NotLoadedErrorIsCached` | internal/httphandler/httphandler.go:55-94 | Before any load, the first request misses and stores "keys not loaded" under the zero time. The next request hits and is served the same error. |
| `Httphandler.KeysJsonCache.constructor` | internal/httphandler/httphandler.go:70-73 | The cache starts at the sentinel version with the "no keys loaded" error. |
| `Httphandler.KeysJsonCache.Get` | internal/httphandler/httphandler.go:77-95 | The new cache state and the returned triple are those of Lookup on the old state, with GetKeysJson as the recomputation. |
| `Httphandler.ValidateRequest` | internal/httphandler/httphandler.go:98-108 | A request proceeds exactly when it is a GET of "/keys". Any other method gets 405 whatever the path. A GET of another path gets 404. |
| `Httphandler.RejectResponse` | internal/httphandler/httphandler.go:36-41 | A rejected request gets its status code, the quoted status text with http.Error's newline, and no cache-control. |
| `Httphandler.ApiResponse` | internal/httphandler/httphandler.go:14-48 | An error gives 500 with the quoted "internal server error". Success gives 200 with the JSON document and the application/json content type. cache-control is present exactly on success with a positive max-age, as "max-age=" followed by the whole seconds. |
| `Text.Decimal` | internal/httphandler/httphandler.go:23 | The max-age value is written as a non-empty string of decimal digits, without a leading zero. Zero is written as "0". |
| `Text.DecimalRoundTrip` | internal/httphandler/httphandler.go:23 | Reading back the digits written for a number gives that number. |
| `Httphandler.DefaultMaxAgeIsOneHour` | internal/httphandler/httphandler.go:22-24 | With the default configuration the header is "max-age=3600". A zero max-age sends no header. |
| `Httphandler.KeysHandler.constructor` | internal/httphandler/httphandler.go:13-14 | The handler gets a fresh cache at its initial entry for its loader. |
| `Httphandler.KeysHandler.ServeHTTP` | internal/httphandler/httphandler.go:31-51 | An invalid request is answered by RejectResponse and leaves the cache alone. A valid one asks the cache with the loader's current load time and answers with ApiResponse. |
| `Config.DefaultConfig` | internal/config/config.go:43-52 | The starting configuration enables HTTP but not HTTPS. Its logger and key loader settings validate, and its TLS settings do not. |
| `Config.EnvVarName` | internal/config/config.go:229-231 | The variable name is the prefix followed by the flag name, character by character upper-cased with "-" as "_". It contains no "-". |
| `Config.EnvVarNameExample` | internal/config/config.go:229-231 | "log-level" maps to "GO_JWKS_SERVER_LOG_LEVEL", and "key-dir" to "GO_JWKS_SERVER_KEY_DIR". |
| `Config.ApplyEnvSucceeds` | internal/config/config.go:206-226 | Without error, every flag with an environment variable was not given on the command line and accepted the value, and it is set to that value. No other flag is set. |
| `Config.ApplyEnvTouchesOnlyEnvFlags` | internal/config/config.go:211-223 | Whatever the outcome, a flag is set only to its own environment variable's value. Flags without one are left as they were. |
| `Config.ApplyEnvFails` | internal/config/config.go:206-226 | An error belongs to one flag with an environment variable. It is "given in both places" when that flag was on the command line, and otherwise the refusal naming the variable. All earlier flags were acceptable. The outcome is that of the flags before it. |
| `Config.ApplyEnvStopsAtError` | internal/config/config.go:206-209 | After the first error, no further flag is examined or set. |
| `Config.SetFromEnv` | internal/config/config.go:197-227 | The visiting loop with its error accumulator sets exactly the flags, and returns exactly the error, that ApplyEnv specifies. |
| `Config.UsageExample` | internal/config/config.go:54-71 | The example flag is the first visited flag with a non-empty name, or "example-flag" when there is none. Its variable is EnvVarName of it. |
| `LoggerConfig.Validate` | internal/logger/config.go:25-33 | A level is accepted exactly when it is one of the nine names. Otherwise the error names the level. |
| `LoggerConfig.LevelsAreCaseSensitive` | internal/logger/config.go:26-30 | "INFO" and "Debug" are refused. |
| `LoggerConfig.DefaultConfigIsValid` | internal/logger/config.go:15-23 | The defaults are level "error", timestamp and caller on, stack, console and no-color off, and file "stderr". They validate. |
| `Logger.LevelOfIsInjective` | internal/logger/logger.go:27-46 | Distinct valid level names select distinct logger levels. |
| `Logger.New` | internal/logger/logger.go:10-65 | Validation errors come first, then an invalid file. Success happens exactly for a valid level with "stdout" or "stderr". Success writes to that file at the named level, with the requested fields. The console writer is present exactly when asked for, and it writes to the same file. |
| `Logger.DefaultLoggerWritesToStderr` | internal/logger/logger.go:16-20 | The default settings give a logger writing errors to stderr. |
| `HttpsrvConfig.Validate` | internal/httpsrv/config.go:32-34 | Every plain server configuration is accepted. |
| `HttpsrvConfig.NewConfigTLS` | internal/httpsrv/config_tls.go:13-20 | The TLS defaults are the plain defaults on ":8443", with no key or certificate file. |
| `HttpsrvConfig.ValidateTLS` | internal/httpsrv/config_tls.go:22-32 | It is accepted exactly when both files are named. A missing key file is reported first, then a missing certificate file. |
| `HttpsrvConfig.Defaults` | internal/httpsrv/config.go:19-30 | The defaults are ":8080", all four timeouts zero, a five-second shutdown and a 1 MiB header limit. The TLS defaults fail validation for want of a key file. |

## Left out

**Concurrency and I/O**
- Locks, goroutines, wait groups and context cancellation are not modelled. Each operation is one atomic step. So the model does not capture the window in the handler between reading the load time and recomputing the document.
- Time is not read from a clock. The time of a reload is an argument, and nothing assumes times increase.
- Logging calls are not modelled. They have no effect on results.
- Process startup, signal handling and the HTTP/TLS servers are not modelled (`cmd/main.go`, `internal/httpsrv/httpsrv.go`, `internal/httpsrv/tls.go`).

**External packages**
- The `keyfiles` package (the directory watcher and the file listing) is not part of this model. Its results are inputs: the listing, per-file contents and watcher events. The model does not claim any ordering or filtering of the listing.
- The skipped-files list from the listing is not modelled. It only feeds a log line.
- PEM decoding, PKIX parsing, JWK construction and JSON marshalling are uninterpreted parameters.
- The key set's rule for refusing a key is an uninterpreted predicate. The model claims neither kid uniqueness nor first-wins.
- `KeyloaderKeys.LoadKeys` treats the key set as a value. The aliasing of the jwx set object and of `jwk.Key` is not modelled.

**Simplifications**
- `Text.ToLower`, `Text.ToUpper`: map ASCII letters only. Go's `strings.ToLower`/`ToUpper` apply full Unicode case mapping.
- Errors carry the file name rather than the `filepath.Join` of the directory and the name.
- Wrapped error messages are constructors of an error datatype, not formatted strings.
- `Httphandler.ApiResponse`: the max-age is integer division of the duration by one second. Go converts through a float (`Duration.Seconds`), which gives the same value for whole-second durations and for durations below 2^24 seconds (about 194 days). Above that, a fractional duration can round up to the next second.
- Durations are unbounded integers. Go's int64 nanoseconds could overflow, which is not modelled.

**Configuration**
- Flag registration and command-line parsing in `config.New`, and the usage text rendered from a template, are not modelled.
- `Config.ApplyEnvTouchesOnlyEnvFlags`: a refused value leaves the flag unset in the model. Go's `Value.Set` for bool, int and duration flags stores the zero value even when it reports an error. This matters only on the error path, after which the program exits.
- `SetFromEnv` takes the flags as the sequence that `flag.VisitAll` visits (sorted by name), and the command-line flags as a set.
- The `http-keys-endpoint` flag is registered against a `KeysEndpoint` field that `internal/httphandler/config.go` does not declare. The handler answers only on the fixed path "/keys", and the model follows that.
- Printing the configuration as JSON (`Config.String`) is not modelled.
