/**
 * The server's lifecycle in app.js: the first build must succeed before the
 * server starts; it then schedules a rebuild every reload interval, and only a
 * rebuild that completes replaces the published snapshot.
 */
module Reload {
  import opened Results
  import opened Promises
  import opened Pagination
  import opened Upstream
  import opened Okta
  import opened Database
  import opened Builder

  const DefaultReloadSecs := 3600

  /** `(config.okta.reload_secs || 3600) * 1000`: an absent or zero setting means an hour. */
  function ReloadIntervalMs(reloadSecs: Option<int>): (ms: int)
    ensures reloadSecs.None? ==> ms == DefaultReloadSecs * 1000
    ensures ms % 1000 == 0
  {
    (if reloadSecs.None? || reloadSecs.value == 0 then DefaultReloadSecs else reloadSecs.value) * 1000
  }

  /** `if (reload_secs >= 0) setInterval(buildDatabase, reload_secs)`. */
  predicate Scheduled(ms: int)
  {
    ms >= 0
  }

  /**
   * Reloading is scheduled unless a negative interval is configured; a zero
   * setting reloads hourly rather than continuously, so every scheduled
   * interval is at least a second.
   */
  lemma ReloadRule(reloadSecs: Option<int>)
    ensures Scheduled(ReloadIntervalMs(reloadSecs)) <==> reloadSecs.None? || reloadSecs.value >= 0
    ensures Scheduled(ReloadIntervalMs(reloadSecs)) ==> ReloadIntervalMs(reloadSecs) >= 1000
    ensures reloadSecs == Some(0) ==> ReloadIntervalMs(reloadSecs) == ReloadIntervalMs(None)
    ensures reloadSecs.Some? && reloadSecs.value != 0 ==> ReloadIntervalMs(reloadSecs) / 1000 == reloadSecs.value
  {
  }

  datatype ReloadError = Fetch(fetch: FetchError) | Build(build: BuildError)

  /** One run of `buildDatabase`: load the directory from Okta, then build the snapshot from it. */
  function Rebuild(api: Api, base: string, c: Config): (r: Settled<Db, ReloadError>)
    ensures r.Resolved? ==> Database.Valid(r.value)
  {
    match BuildOktaDirectory(api, base)
    case Rejected(e) => Rejected(Fetch(e))
    case Pending => Pending
    case Resolved(dir) =>
      LinkedWell(api, base);
      match BuildDatabase(c, dir)
      case Success(db) => Resolved(db)
      case Failure(e) => Rejected(Build(e))
  }

  lemma LinkedWell(api: Api, base: string)
    requires BuildOktaDirectory(api, base).Resolved?
    ensures WellLinked(BuildOktaDirectory(api, base).value)
  {
    BuildOktaDirectoryOutcome(api, base);
  }

  datatype Server = NotServing | Serving(db: Db, intervalMs: int)

  /** `buildDatabase().then(...)`: the server starts only on a first build that completed. */
  function Start(first: Settled<Db, ReloadError>, reloadSecs: Option<int>): Server
  {
    if first.Resolved? then Serving(first.value, ReloadIntervalMs(reloadSecs)) else NotServing
  }

  /** A scheduled rebuild finishing: `Container.db = db` on success only. */
  function Tick(s: Server, outcome: Settled<Db, ReloadError>): (r: Server)
    ensures r.Serving? <==> s.Serving?
    ensures r.Serving? ==> r.intervalMs == s.intervalMs
  {
    match s
    case NotServing => NotServing
    case Serving(db, ms) =>
      if Scheduled(ms) && outcome.Resolved? then Serving(outcome.value, ms) else s
  }

  /** The server after its first build and the rebuilds that followed, in completion order. */
  function Run(first: Settled<Db, ReloadError>, reloadSecs: Option<int>, later: seq<Settled<Db, ReloadError>>): (r: Server)
    ensures r.Serving? <==> first.Resolved?
    ensures r.Serving? ==> r.intervalMs == ReloadIntervalMs(reloadSecs)
    decreases |later|
  {
    if |later| == 0 then Start(first, reloadSecs)
    else Tick(Run(first, reloadSecs, later[..|later| - 1]), later[|later| - 1])
  }

  /** Reference: the last build that completed, if any. */
  function LastResolved(first: Db, later: seq<Settled<Db, ReloadError>>): Db
    decreases |later|
  {
    if |later| == 0 then first
    else if later[|later| - 1].Resolved? then later[|later| - 1].value
    else LastResolved(first, later[..|later| - 1])
  }

  /**
   * A server never starts after a failed first build. Once serving, it
   * publishes the snapshot of the last rebuild that completed (the first build
   * if none did), or keeps the first snapshot forever when reloading is off.
   */
  lemma {:induction false} RunPublishesLastBuild(first: Settled<Db, ReloadError>, reloadSecs: Option<int>, later: seq<Settled<Db, ReloadError>>)
    ensures !first.Resolved? ==> Run(first, reloadSecs, later) == NotServing
    ensures first.Resolved? ==>
              && Run(first, reloadSecs, later).Serving?
              && Run(first, reloadSecs, later).intervalMs == ReloadIntervalMs(reloadSecs)
              && Run(first, reloadSecs, later).db
                 == if Scheduled(ReloadIntervalMs(reloadSecs)) then LastResolved(first.value, later) else first.value
    decreases |later|
  {
    if |later| > 0 {
      RunPublishesLastBuild(first, reloadSecs, later[..|later| - 1]);
    }
  }
}
