/** The key store: the last key set loaded successfully and when it was
    loaded, reloaded on demand or on every change a directory watcher
    reports, under a fixed failure policy. */
module Keyloader {
  import opened Common
  import KeyloaderConfig
  import opened KeyloaderKeys

  /** The published state: the key set (absent until the first successful
      load) and its load time. */
  datatype Snapshot = Snapshot(keys: Option<KeySet>, loadTime: Time)

  /** The state of a new loader. */
  const Unloaded := Snapshot(None, ZeroTime)

  /** What the watcher reports: a failed scan, or a change after which the
      directory looks like `dir`; `now` is the clock when a reload triggered
      by the change completes. */
  datatype Event = ScanError(cause: string) | Changed(dir: DirState, now: Time)

  /** One reload. A successful load replaces the key set and its time; a
      failed one leaves both as they were and reports the error only under
      the fail-on-error policy. */
  function Reload(config: KeyloaderConfig.Config, p: Primitives, s: Snapshot, d: DirState, now: Time)
    : (r: (Snapshot, Option<Error>))
    ensures BuildKeySet(p, d).Ok? ==> r == (Snapshot(Some(BuildKeySet(p, d).value.keySet), now), None)
    ensures BuildKeySet(p, d).Err? ==> r.0 == s
    ensures BuildKeySet(p, d).Err? ==> (r.1.Some? <==> config.failOnError)
    ensures r.1.Some? ==> r.1 == Some(BuildKeySet(p, d).error)
    ensures s.keys.Some? ==> r.0.keys.Some?
  {
    match BuildKeySet(p, d)
    case Ok(b) => (Snapshot(Some(b.keySet), now), None)
    case Err(e) => (s, if config.failOnError then Some(e) else None)
  }

  /** The watch loop over a finite event stream: scan errors are skipped
      unless failing on errors, every change reloads, and the first error
      that is returned ends the loop. */
  function Watch(config: KeyloaderConfig.Config, p: Primitives, s: Snapshot, events: seq<Event>)
    : (Snapshot, Option<Error>)
    decreases |events|
  {
    if events == [] then (s, None)
    else
      match events[0]
      case ScanError(cause) =>
        if config.failOnError then (s, Some(ScanFailed(cause)))
        else Watch(config, p, s, events[1..])
      case Changed(d, now) =>
        var (s', err) := Reload(config, p, s, d, now);
        if err.Some? then (s', err) else Watch(config, p, s', events[1..])
  }

  /** Without the fail-on-error policy the loop never returns an error:
      failed events are skipped, and what remains published is the set of
      the last change that loaded, or the initial state if none did. */
  lemma {:induction false} WatchBestEffortNeverFails(config: KeyloaderConfig.Config, p: Primitives, s: Snapshot, events: seq<Event>)
    requires !config.failOnError
    ensures Watch(config, p, s, events).1 == None
    ensures (forall j :: 0 <= j < |events| ==> !GoodLoad(p, events[j])) ==> Watch(config, p, s, events).0 == s
    ensures forall j :: 0 <= j < |events| && GoodLoad(p, events[j]) &&
                        (forall l :: j < l < |events| ==> !GoodLoad(p, events[l])) ==>
              Watch(config, p, s, events).0 == Snapshot(Some(BuildKeySet(p, events[j].dir).value.keySet), events[j].now)
    decreases |events|
  {
    if events != [] {
      match events[0]
      case ScanError(_) =>
        WatchBestEffortNeverFails(config, p, s, events[1..]);
      case Changed(d, now) =>
        WatchBestEffortNeverFails(config, p, Reload(config, p, s, d, now).0, events[1..]);
    }
    if forall j :: 0 <= j < |events| ==> !GoodLoad(p, events[j]) {
      WatchWithoutGoodLoadKeepsState(config, p, s, events);
    }
    forall j | 0 <= j < |events| && GoodLoad(p, events[j]) && (forall l :: j < l < |events| ==> !GoodLoad(p, events[l]))
      ensures Watch(config, p, s, events).0 == Snapshot(Some(BuildKeySet(p, events[j].dir).value.keySet), events[j].now)
    {
      WatchPublishesLastGoodLoad(config, p, s, events, j);
    }
  }

  /** Whether `event` is a change after which the directory loads. */
  predicate GoodLoad(p: Primitives, event: Event) {
    event.Changed? && BuildKeySet(p, event.dir).Ok?
  }

  /** A run that returns no error and sees no change that loads leaves the
      state as it found it: failed reloads and scan errors change nothing. */
  lemma {:induction false} WatchWithoutGoodLoadKeepsState(config: KeyloaderConfig.Config, p: Primitives, s: Snapshot,
                                                         events: seq<Event>)
    requires Watch(config, p, s, events).1.None?
    requires forall j :: 0 <= j < |events| ==> !GoodLoad(p, events[j])
    ensures Watch(config, p, s, events).0 == s
    decreases |events|
  {
    if events != [] && !config.failOnError {
      assert !GoodLoad(p, events[0]);
      forall j | 0 <= j < |events[1..]| ensures !GoodLoad(p, events[1..][j]) {
        assert events[1..][j] == events[j + 1];
      }
      WatchWithoutGoodLoadKeepsState(config, p, s, events[1..]);
    }
  }

  /** A run that returns no error publishes the set of its last change that
      loads, stamped with that change's time; later failed events leave it
      in place. */
  lemma {:induction false} WatchPublishesLastGoodLoad(config: KeyloaderConfig.Config, p: Primitives, s: Snapshot,
                                                     events: seq<Event>, j: nat)
    requires Watch(config, p, s, events).1.None?
    requires j < |events| && GoodLoad(p, events[j])
    requires forall l :: j < l < |events| ==> !GoodLoad(p, events[l])
    ensures Watch(config, p, s, events).0 == Snapshot(Some(BuildKeySet(p, events[j].dir).value.keySet), events[j].now)
    decreases j
  {
    var e := events[0];
    var s' := if e.ScanError? then s else Reload(config, p, s, e.dir, e.now).0;
    if j == 0 {
      forall l | 0 <= l < |events[1..]| ensures !GoodLoad(p, events[1..][l]) {
        assert events[1..][l] == events[l + 1];
      }
      WatchWithoutGoodLoadKeepsState(config, p, s', events[1..]);
    } else if !(config.failOnError && EventFails(p, e)) {
      forall l | j - 1 < l < |events[1..]| ensures !GoodLoad(p, events[1..][l]) {
        assert events[1..][l] == events[l + 1];
      }
      assert events[1..][j - 1] == events[j];
      WatchPublishesLastGoodLoad(config, p, s', events[1..], j - 1);
    }
  }

  /** Once the loop has returned an error, later events are never looked
      at: they change neither the state nor the error. */
  lemma {:induction false} WatchIgnoresEventsAfterError(config: KeyloaderConfig.Config, p: Primitives, s: Snapshot,
                                                       pre: seq<Event>, rest: seq<Event>)
    requires Watch(config, p, s, pre).1.Some?
    ensures Watch(config, p, s, pre + rest) == Watch(config, p, s, pre)
    decreases |pre|
  {
    assert pre != [];
    assert (pre + rest)[0] == pre[0] && (pre + rest)[1..] == pre[1..] + rest;
    match pre[0]
    case ScanError(_) =>
      if !config.failOnError {
        WatchIgnoresEventsAfterError(config, p, s, pre[1..], rest);
      }
    case Changed(d, now) =>
      var (s', err) := Reload(config, p, s, d, now);
      if err.None? {
        WatchIgnoresEventsAfterError(config, p, s', pre[1..], rest);
      }
  }

  /** Whether handling `event` can end the loop with `err`: a scan error
      carrying it, or a change whose reload fails with it. */
  predicate EventFailsWith(p: Primitives, event: Event, err: Error) {
    match event
    case ScanError(cause) => err == ScanFailed(cause)
    case Changed(d, _) => BuildKeySet(p, d) == Err(err)
  }

  /** An error from the loop is the error of one event, either a scan error
      or a failed reload, reported under the fail-on-error policy and
      reached with every earlier event handled without error. */
  lemma {:induction false} WatchErrorComesFromOneEvent(config: KeyloaderConfig.Config, p: Primitives, s: Snapshot, events: seq<Event>)
    requires Watch(config, p, s, events).1.Some?
    ensures config.failOnError
    ensures exists k :: 0 <= k < |events| &&
              Watch(config, p, s, events) == Watch(config, p, s, events[..k + 1]) &&
              EventFailsWith(p, events[k], Watch(config, p, s, events).1.value)
    decreases |events|
  {
    if !config.failOnError {
      WatchBestEffortNeverFails(config, p, s, events);
    }
    assert events != [];
    var w := Watch(config, p, s, events);
    match events[0]
    case ScanError(cause) =>
      assert events[..1] == [events[0]];
      assert Watch(config, p, s, events[..1]) == w;
    case Changed(d, now) =>
      var (s', err) := Reload(config, p, s, d, now);
      if err.Some? {
        assert events[..1] == [events[0]];
        assert Watch(config, p, s, events[..1]) == w;
      } else {
        WatchErrorComesFromOneEvent(config, p, s', events[1..]);
        var k :| 0 <= k < |events[1..]| &&
              Watch(config, p, s', events[1..]) == Watch(config, p, s', events[1..][..k + 1]) &&
              EventFailsWith(p, events[1..][k], Watch(config, p, s', events[1..]).1.value);
        assert events[..k + 2][0] == events[0] && events[..k + 2][1..] == events[1..][..k + 1];
        assert Watch(config, p, s, events[..k + 2]) == Watch(config, p, s', events[1..][..k + 1]);
        assert events[k + 1] == events[1..][k];
      }
  }

  /** Whether handling `event` fails: a scan error, or a change after which
      the directory does not load. */
  predicate EventFails(p: Primitives, event: Event) {
    event.ScanError? || BuildKeySet(p, event.dir).Err?
  }

  /** Under the fail-on-error policy the first failing event ends the loop:
      its error is returned, and the state is the one the earlier events
      left. */
  lemma {:induction false} WatchFailFastStopsAtFirstFailure(config: KeyloaderConfig.Config, p: Primitives, s: Snapshot,
                                                           events: seq<Event>, k: nat)
    requires config.failOnError
    requires k < |events| && EventFails(p, events[k])
    requires forall j :: 0 <= j < k ==> !EventFails(p, events[j])
    ensures Watch(config, p, s, events).1.Some?
    ensures EventFailsWith(p, events[k], Watch(config, p, s, events).1.value)
    ensures Watch(config, p, s, events).0 == Watch(config, p, s, events[..k]).0
    decreases k
  {
    assert events[..0] == [];
    if k > 0 {
      assert !EventFails(p, events[0]);
      var s' := Reload(config, p, s, events[0].dir, events[0].now).0;
      forall j | 0 <= j < k - 1 ensures !EventFails(p, events[1..][j]) {
        assert events[1..][j] == events[j + 1];
      }
      WatchFailFastStopsAtFirstFailure(config, p, s', events[1..], k - 1);
      assert events[1..][k - 1] == events[k];
      assert events[..k][0] == events[0] && events[..k][1..] == events[1..][..k - 1];
    }
  }

  /** Under the fail-on-error policy the loop returns an error exactly when
      some event fails. */
  lemma {:induction false} WatchFailsIffSomeEventFails(config: KeyloaderConfig.Config, p: Primitives, s: Snapshot,
                                                      events: seq<Event>)
    requires config.failOnError
    ensures Watch(config, p, s, events).1.Some? <==> exists k :: 0 <= k < |events| && EventFails(p, events[k])
    decreases |events|
  {
    if events != [] && !EventFails(p, events[0]) {
      var s' := Reload(config, p, s, events[0].dir, events[0].now).0;
      WatchFailsIffSomeEventFails(config, p, s', events[1..]);
      if exists k :: 0 <= k < |events| && EventFails(p, events[k]) {
        var k :| 0 <= k < |events| && EventFails(p, events[k]);
        assert events[1..][k - 1] == events[k];
      }
      if exists k :: 0 <= k < |events[1..]| && EventFails(p, events[1..][k]) {
        var k :| 0 <= k < |events[1..]| && EventFails(p, events[1..][k]);
        assert events[k + 1] == events[1..][k];
      }
    } else if events != [] {
      assert EventFails(p, events[0]);
    }
  }

  /** Once a key set has been loaded, the loop never takes it away. */
  lemma {:induction false} WatchKeepsLoadedKeys(config: KeyloaderConfig.Config, p: Primitives, s: Snapshot, events: seq<Event>)
    requires s.keys.Some?
    ensures Watch(config, p, s, events).0.keys.Some?
    decreases |events|
  {
    if events != [] {
      match events[0]
      case ScanError(_) =>
        if !config.failOnError {
          WatchKeepsLoadedKeys(config, p, s, events[1..]);
        }
      case Changed(d, now) =>
        var (s', err) := Reload(config, p, s, d, now);
        if err.None? {
          WatchKeepsLoadedKeys(config, p, s', events[1..]);
        }
    }
  }

  /** The reply of GetKeys: the key set and its time, or an error. */
  datatype KeysReply = KeysReply(keys: Option<KeySet>, loadTime: Time, err: Option<Error>)

  class Keyloader {
    const config: KeyloaderConfig.Config
    var keys: Option<KeySet>
    var keysLoadTimestamp: Time

    /** The configuration was validated, and a load time is only ever set
        together with a key set. */
    ghost predicate Valid()
      reads this
    {
      && KeyloaderConfig.Validate(config).None?
      && (keys.None? ==> keysLoadTimestamp == ZeroTime)
    }

    function State(): Snapshot
      reads this
    {
      Snapshot(keys, keysLoadTimestamp)
    }

    constructor (config: KeyloaderConfig.Config)
      requires KeyloaderConfig.Validate(config).None?
      ensures Valid() && this.config == config && State() == Unloaded
    {
      this.config := config;
      keys := None;
      keysLoadTimestamp := ZeroTime;
    }

    /** The load time of the key set held, or the zero time before the first
        successful load. */
    function GetKeysLoadTime(): Time
      reads this
    {
      keysLoadTimestamp
    }

    /** The key set and its load time; "keys not loaded" with the zero time
        exactly while no load has succeeded. */
    function GetKeys(): (r: KeysReply)
      reads this
      ensures r.err.Some? <==> keys.None?
      ensures keys.None? ==> r == KeysReply(None, ZeroTime, Some(KeysNotLoaded))
      ensures keys.Some? ==> r.keys == keys && r.loadTime == keysLoadTimestamp
    {
      if keys.None? then KeysReply(None, ZeroTime, Some(KeysNotLoaded))
      else KeysReply(keys, keysLoadTimestamp, None)
    }

    /** Loads the directory as it is now (`d`), stamping a success with
        `now`. */
    method LoadKeys(p: Primitives, d: DirState, now: Time) returns (err: Option<Error>)
      requires Valid()
      modifies this
      ensures Valid()
      ensures (State(), err) == Reload(config, p, old(State()), d, now)
    {
      var r := KeyloaderKeys.LoadKeys(p, d);
      if r.Err? {
        if config.failOnError {
          return Some(r.error);
        }
        return None;
      }
      keys := Some(r.value.keySet);
      keysLoadTimestamp := now;
      return None;
    }

    /** Handles the watcher's events in order until the stream ends or an
        error is to be returned. */
    method LoadKeysWatch(p: Primitives, events: seq<Event>) returns (retErr: Option<Error>)
      requires Valid()
      modifies this
      ensures Valid()
      ensures (State(), retErr) == Watch(config, p, old(State()), events)
    {
      var i := 0;
      while i < |events|
        invariant 0 <= i <= |events|
        invariant Valid()
        invariant Watch(config, p, old(State()), events) == Watch(config, p, State(), events[i..])
      {
        var event := events[i];
        if event.ScanError? {
          if config.failOnError {
            return Some(ScanFailed(event.cause));
          }
          i := i + 1;
          continue;
        }
        var err := LoadKeys(p, event.dir, event.now);
        if err.Some? {
          return err;
        }
        i := i + 1;
      }
      return None;
    }
  }

  /** NewKeyloader: an invalid configuration is refused, otherwise the new
      loader holds no keys. */
  method NewKeyloader(config: KeyloaderConfig.Config) returns (kl: Keyloader?, err: Option<Error>)
    ensures err == KeyloaderConfig.Validate(config)
    ensures err.Some? <==> kl == null
    ensures kl != null ==> fresh(kl) && kl.Valid() && kl.config == config && kl.State() == Unloaded
  {
    err := KeyloaderConfig.Validate(config);
    if err.Some? {
      return null, err;
    }
    kl := new Keyloader(config);
  }

  /** GetKeys and GetKeysLoadTime always report the same time, loaded or
      not, because the load time is only ever set together with a key set. */
  lemma LoadTimesAgree(kl: Keyloader)
    requires kl.Valid()
    ensures kl.GetKeys().loadTime == kl.GetKeysLoadTime()
  {
  }
}
