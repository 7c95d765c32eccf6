/** The keys endpoint: request validation, the JSON document of the current
    key set, a cache of that document keyed by the key set's load time, and
    the response built from it. */
module Httphandler {
  import opened Common
  import opened KeyloaderKeys
  import Keyloader
  import HttphandlerConfig
  import Text

  /** The cache's initial version, `time.Date(0, 0, 0, 0, 0, 0, 1, time.UTC)`:
      month 0 and day 0 normalise to November 30 of year -1, which is 398
      days before Go's zero time (year 0 is a leap year); plus 1ns. */
  const SentinelTime: Time := -398 * 24 * 3600 * Second + 1

  /** What GetKeysJson returns: the document, the load time of the key set
      it encodes, and an error. */
  datatype JsonReply = JsonReply(json: Bytes, loadTime: Time, err: Option<Error>)

  /** The JSON document of the loader's current key set, with that set's
      load time; on any error, no document and the zero time. */
  function GetKeysJson(kl: Keyloader.Keyloader, marshal: KeySet -> Result<Bytes, string>): (r: JsonReply)
    reads kl
    ensures r.err.None? <==> kl.keys.Some? && marshal(kl.keys.value).Ok?
    ensures r.err.None? ==> r.json == marshal(kl.keys.value).value && r.loadTime == kl.keysLoadTimestamp
    ensures r.err.Some? ==> r.json == [] && r.loadTime == ZeroTime
    ensures kl.keys.None? ==> r.err == Some(GettingKeys(KeysNotLoaded))
  {
    var reply := kl.GetKeys();
    if reply.err.Some? then JsonReply([], ZeroTime, Some(GettingKeys(reply.err.value)))
    else
      match marshal(reply.keys.value)
      case Err(cause) => JsonReply([], ZeroTime, Some(MarshalFailed(cause)))
      case Ok(json) => JsonReply(json, reply.loadTime, None)
  }

  /** The cache's state: the version it last computed for, and the document
      and error it computed. */
  datatype CacheEntry = CacheEntry(version: Time, json: Bytes, err: Option<Error>)

  /** What the cached getter returns; `cached` tells a hit from a miss. */
  datatype Served = Served(json: Bytes, cached: bool, err: Option<Error>)

  const InitialEntry := CacheEntry(SentinelTime, [], Some(NoKeysLoaded))

  /** One call of the cached getter with the caller's `loadTime`: a version
      equal to the stored one is a hit that serves the stored pair and keeps
      the entry; anything else is a miss that stores and serves `recomputed`,
      under the load time `recomputed` reports rather than the caller's. */
  function Lookup(e: CacheEntry, loadTime: Time, recomputed: JsonReply): (r: (CacheEntry, Served))
    ensures r.1.cached <==> e.version == loadTime
    ensures r.1.cached ==> r.0 == e
    ensures !r.1.cached ==> r.0 == CacheEntry(recomputed.loadTime, recomputed.json, recomputed.err)
    ensures r.1.json == r.0.json && r.1.err == r.0.err
  {
    if e.version == loadTime then (e, Served(e.json, true, e.err))
    else (CacheEntry(recomputed.loadTime, recomputed.json, recomputed.err), Served(recomputed.json, false, recomputed.err))
  }

  /** The first call recomputes whenever the caller's time is not the
      sentinel, in particular for the zero time a loader reports before its
      first load. */
  lemma FirstLookupRecomputes(loadTime: Time, recomputed: JsonReply)
    requires loadTime != SentinelTime
    ensures Lookup(InitialEntry, loadTime, recomputed) ==
              (CacheEntry(recomputed.loadTime, recomputed.json, recomputed.err), Served(recomputed.json, false, recomputed.err))
  {
  }

  lemma SentinelIsNotZeroTime()
    ensures SentinelTime != ZeroTime
    ensures SentinelTime < ZeroTime
  {
  }

  /** After a miss whose recomputation reported the caller's own time, the
      next call with that time is a hit serving the same document and error,
      whatever a recomputation would now give. */
  lemma RepeatedLookupIsCached(e: CacheEntry, loadTime: Time, recomputed: JsonReply, later: JsonReply)
    requires recomputed.loadTime == loadTime
    ensures var (e1, s1) := Lookup(e, loadTime, recomputed);
            var (e2, s2) := Lookup(e1, loadTime, later);
            s2.cached && e2 == e1 && s2.json == s1.json && s2.err == s1.err
  {
  }

  /** The recomputed reply carries the loader's load time exactly when the
      key set is not loaded or encodes: only then can a later call with the
      same time hit. An encoding error of a loaded set is stored under the
      zero time and so is recomputed on every call (unless the set was
      loaded at the zero time itself). */
  lemma ReplyVersionMatchesLoadTime(kl: Keyloader.Keyloader, marshal: KeySet -> Result<Bytes, string>)
    requires kl.Valid()
    ensures kl.keys.None? ==> GetKeysJson(kl, marshal).loadTime == kl.GetKeysLoadTime() == ZeroTime
    ensures kl.keys.Some? && marshal(kl.keys.value).Ok? ==> GetKeysJson(kl, marshal).loadTime == kl.GetKeysLoadTime()
    ensures kl.keys.Some? && marshal(kl.keys.value).Err? && kl.GetKeysLoadTime() != ZeroTime ==>
              GetKeysJson(kl, marshal).loadTime != kl.GetKeysLoadTime()
  {
  }

  /** Before any load, the first request stores the "keys not loaded" error
      under the zero time, and the next request, still before any load,
      hits the cache and is served that same error. */
  lemma NotLoadedErrorIsCached(kl: Keyloader.Keyloader, marshal: KeySet -> Result<Bytes, string>)
    requires kl.Valid() && kl.keys.None?
    ensures var (e1, s1) := Lookup(InitialEntry, kl.GetKeysLoadTime(), GetKeysJson(kl, marshal));
            var (e2, s2) := Lookup(e1, kl.GetKeysLoadTime(), GetKeysJson(kl, marshal));
            && !s1.cached && s1.err == Some(GettingKeys(KeysNotLoaded))
            && e1.version == ZeroTime
            && s2.cached && s2.err == Some(GettingKeys(KeysNotLoaded))
  {
    ReplyVersionMatchesLoadTime(kl, marshal);
    RepeatedLookupIsCached(InitialEntry, ZeroTime, GetKeysJson(kl, marshal), GetKeysJson(kl, marshal));
  }

  /** The closure returned by getKeysJsonCached, with its three captured
      variables as fields. */
  class KeysJsonCache {
    const kl: Keyloader.Keyloader
    const marshal: KeySet -> Result<Bytes, string>
    var lastKeysLoadTime: Time
    var lastKeysJson: Bytes
    var lastErr: Option<Error>

    function Entry(): CacheEntry
      reads this
    {
      CacheEntry(lastKeysLoadTime, lastKeysJson, lastErr)
    }

    constructor (kl: Keyloader.Keyloader, marshal: KeySet -> Result<Bytes, string>)
      ensures this.kl == kl && this.marshal == marshal
      ensures Entry() == InitialEntry
    {
      this.kl := kl;
      this.marshal := marshal;
      lastKeysLoadTime := SentinelTime;
      lastKeysJson := [];
      lastErr := Some(NoKeysLoaded);
    }

    method Get(loadTime: Time) returns (json: Bytes, cached: bool, err: Option<Error>)
      modifies this
      ensures (Entry(), Served(json, cached, err)) == Lookup(old(Entry()), loadTime, GetKeysJson(kl, marshal))
    {
      var mustLoad := lastKeysLoadTime != loadTime;
      if !mustLoad {
        return lastKeysJson, true, lastErr;
      }
      var recomputed := GetKeysJson(kl, marshal);
      lastKeysJson := recomputed.json;
      lastKeysLoadTime := recomputed.loadTime;
      lastErr := recomputed.err;
      return recomputed.json, false, recomputed.err;
    }
  }

  datatype Request = Request(verb: string, path: string)

  /** The outcome of request validation: an HTTP status and whether the
      request may proceed. */
  datatype Validation = Validation(code: int, ok: bool)

  const KeysPath := "/keys"
  const StatusOK := 200
  const StatusNotFound := 404
  const StatusMethodNotAllowed := 405
  const StatusInternalServerError := 500

  /** Only GET requests for the keys path proceed; the method is checked
      before the path, so any other method gets 405 whatever its path. */
  function ValidateRequest(r: Request): (v: Validation)
    ensures v.ok <==> r.verb == "GET" && r.path == KeysPath
    ensures r.verb != "GET" ==> v == Validation(StatusMethodNotAllowed, false)
    ensures r.verb == "GET" && r.path != KeysPath ==> v == Validation(StatusNotFound, false)
    ensures v.ok ==> v.code == 0
  {
    if r.verb != "GET" then Validation(StatusMethodNotAllowed, false)
    else if r.path != KeysPath then Validation(StatusNotFound, false)
    else Validation(0, true)
  }

  /** `http.StatusText` for the statuses this handler sends. */
  function StatusText(code: int): string {
    if code == StatusOK then "OK"
    else if code == StatusNotFound then "Not Found"
    else if code == StatusMethodNotAllowed then "Method Not Allowed"
    else if code == StatusInternalServerError then "Internal Server Error"
    else ""
  }

  datatype Body = Payload(bytes: Bytes) | PlainText(text: string)

  /** The response as the client receives it. */
  datatype Response = Response(status: int, header: map<string, string>, body: Body)

  const ContentType := "Content-Type"
  const CacheControl := "cache-control"
  const JsonContentType := map[ContentType := "application/json"]

  /** `http.Error`: it replaces the content type with plain text, adds
      `X-Content-Type-Options: nosniff`, sends `code` and writes the text
      followed by a newline. */
  function HttpError(header: map<string, string>, text: string, code: int): Response {
    Response(code,
             header[ContentType := "text/plain; charset=utf-8"]["X-Content-Type-Options" := "nosniff"],
             PlainText(text + "\n"))
  }

  /** The response to a request that failed validation: its status, with the
      status text in quotes as the body. */
  function RejectResponse(code: int): (resp: Response)
    ensures resp.status == code
    ensures resp.body == PlainText("\"" + StatusText(code) + "\"" + "\n")
    ensures CacheControl !in resp.header
  {
    HttpError(JsonContentType, "\"" + StatusText(code) + "\"", code)
  }

  /** The response to a valid request, given what the cached getter served.
      A served error becomes a 500; otherwise the document is sent as JSON,
      with a cache-control header exactly when a positive max-age is set. */
  function ApiResponse(config: HttphandlerConfig.Config, served: Served): (resp: Response)
    ensures served.err.Some? ==>
              resp.status == StatusInternalServerError && resp.body == PlainText("\"internal server error\"" + "\n")
    ensures served.err.None? ==>
              resp.status == StatusOK && resp.body == Payload(served.json)
              && ContentType in resp.header && resp.header[ContentType] == "application/json"
    ensures CacheControl in resp.header <==> served.err.None? && config.cacheMaxAge > 0
    ensures CacheControl in resp.header ==>
              resp.header[CacheControl] == "max-age=" + Text.Decimal(config.cacheMaxAge / Second)
  {
    if served.err.Some? then
      HttpError(JsonContentType, "\"internal server error\"", StatusInternalServerError)
    else
      var header :=
        if config.cacheMaxAge > 0
        then JsonContentType[CacheControl := "max-age=" + Text.Decimal(config.cacheMaxAge / Second)]
        else JsonContentType;
      Response(StatusOK, header, Payload(served.json))
  }

  /** With the default configuration a successful response advertises a
      max-age of 3600 seconds; a max-age of zero sends no cache-control. */
  lemma DefaultMaxAgeIsOneHour(served: Served)
    requires served.err.None?
    ensures ApiResponse(HttphandlerConfig.NewConfig(), served).header[CacheControl] == "max-age=3600"
    ensures CacheControl !in ApiResponse(HttphandlerConfig.Config(0), served).header
  {
    assert Text.Decimal(3600) == "3600" by {
      assert Text.Decimal(3) == "3";
      assert Text.Decimal(36) == "36";
      assert Text.Decimal(360) == "360";
    }
  }

  /** The HTTP handler: validation, then the cached getter asked with the
      loader's current load time, then the response. */
  class KeysHandler {
    const kl: Keyloader.Keyloader
    const config: HttphandlerConfig.Config
    const cache: KeysJsonCache

    constructor (kl: Keyloader.Keyloader, config: HttphandlerConfig.Config, marshal: KeySet -> Result<Bytes, string>)
      ensures this.kl == kl && this.config == config
      ensures fresh(cache) && cache.kl == kl && cache.marshal == marshal && cache.Entry() == InitialEntry
    {
      this.kl := kl;
      this.config := config;
      cache := new KeysJsonCache(kl, marshal);
    }

    method ServeHTTP(r: Request) returns (resp: Response)
      requires cache.kl == kl
      modifies cache
      ensures !ValidateRequest(r).ok ==>
                resp == RejectResponse(ValidateRequest(r).code) && cache.Entry() == old(cache.Entry())
      ensures ValidateRequest(r).ok ==>
                var (e, served) := Lookup(old(cache.Entry()), kl.GetKeysLoadTime(), GetKeysJson(kl, cache.marshal));
                cache.Entry() == e && resp == ApiResponse(config, served)
    {
      var v := ValidateRequest(r);
      if !v.ok {
        return RejectResponse(v.code);
      }
      var json, cached, err := cache.Get(kl.GetKeysLoadTime());
      resp := ApiResponse(config, Served(json, cached, err));
    }
  }
}
