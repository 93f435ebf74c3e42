/**
 * The health endpoint: a database probe and a cache probe are folded into one
 * report and an HTTP status code. The probes' outcomes, the clock reading and
 * the application configuration are inputs; the JSON rendering is left out.
 */
module HealthController {
  import opened Wrappers

  datatype ServiceStatus = Up | Down
  datatype ServiceCheck = ServiceCheck(status: ServiceStatus, message: string)
  datatype Overall = Healthy | Unhealthy

  /** What `DB::connection()->getPdo()` did: returned, or threw an `\Exception` with a message. */
  datatype DatabaseProbe = DbOk | DbThrows(message: string)

  /** What the cache round trip did: read back a value (None for a miss) or threw an `\Exception` with a message. */
  datatype CacheProbe = CacheRead(value: Option<string>) | CacheThrows(message: string)

  /** The `app.name`, `app.env` and `app.debug` configuration values. */
  datatype AppConfig = AppConfig(name: string, environment: string, debug: bool)

  datatype Application = Application(name: string, environment: string, debug: bool, version: string)

  datatype HealthReport = HealthReport(
    status: Overall,
    timestamp: string,
    services: map<string, ServiceCheck>,
    application: Application)

  const Version: string := "1.0.0"
  const CacheSentinel: string := "ok"

  /** The JSON words for the two enumerations. */
  function OverallWord(o: Overall): (w: string)
    ensures w == "healthy" <==> o == Healthy
  {
    if o == Healthy then "healthy" else "unhealthy"
  }

  function StatusWord(s: ServiceStatus): (w: string)
    ensures w == "up" <==> s == Up
  {
    if s == Up then "up" else "down"
  }

  // ------------------------------------------------------------ specification

  /** The `services.database` entry a database probe produces. */
  function DatabaseCheck(db: DatabaseProbe): (c: ServiceCheck)
    ensures c.status == Up <==> db.DbOk?
    ensures db.DbOk? ==> c == ServiceCheck(Up, "Database connection successful")
    ensures db.DbThrows? ==> c.message == "Database connection failed: " + db.message
  {
    match db
    case DbOk => ServiceCheck(Up, "Database connection successful")
    case DbThrows(msg) => ServiceCheck(Down, "Database connection failed: " + msg)
  }

  /** The `services.cache` entry a cache probe produces. */
  function CacheCheck(cache: CacheProbe): (c: ServiceCheck)
    ensures c.status == Up <==> cache == CacheRead(Some(CacheSentinel))
    ensures cache.CacheRead? ==>
              c.message == (if cache.value == Some(CacheSentinel) then "Cache is working" else "Cache check failed")
    ensures cache.CacheThrows? ==> c.message == "Cache check failed: " + cache.message
  {
    match cache
    case CacheRead(v) =>
      if v == Some(CacheSentinel) then ServiceCheck(Up, "Cache is working")
      else ServiceCheck(Down, "Cache check failed")
    case CacheThrows(msg) => ServiceCheck(Down, "Cache check failed: " + msg)
  }

  /** The overall status: only a probe that threw makes the application unhealthy. */
  function OverallOf(db: DatabaseProbe, cache: CacheProbe): (o: Overall)
    ensures o == Healthy <==> !db.DbThrows? && !cache.CacheThrows?
  {
    if db.DbThrows? || cache.CacheThrows? then Unhealthy else Healthy
  }

  function StatusCode(o: Overall): (code: int)
    ensures code == 200 <==> o == Healthy
    ensures code == 503 <==> o == Unhealthy
  {
    match o
    case Healthy => 200
    case Unhealthy => 503
  }

  /** Unhealthy always has a reason: some service reports down. */
  lemma UnhealthyMeansServiceDown(db: DatabaseProbe, cache: CacheProbe)
    ensures OverallOf(db, cache) == Unhealthy ==>
              DatabaseCheck(db).status == Down || CacheCheck(cache).status == Down
  {
  }

  /**
   * The converse fails: a cache that reads back the wrong value is reported
   * down while the application stays healthy and answers 200.
   */
  lemma CacheMismatchStaysHealthy(v: Option<string>)
    requires v != Some(CacheSentinel)
    ensures CacheCheck(CacheRead(v)) == ServiceCheck(Down, "Cache check failed")
    ensures OverallOf(DbOk, CacheRead(v)) == Healthy && StatusCode(OverallOf(DbOk, CacheRead(v))) == 200
  {
  }

  /** A database up and a cache that throws: unhealthy, 503, cache down. */
  lemma CacheThrowsScenario(msg: string)
    ensures OverallOf(DbOk, CacheThrows(msg)) == Unhealthy
    ensures StatusCode(OverallOf(DbOk, CacheThrows(msg))) == 503
    ensures StatusWord(CacheCheck(CacheThrows(msg)).status) == "down"
  {
  }

  // ------------------------------------------------------------ the endpoint

  /**
   * `check()`: start healthy with no services, record the database entry,
   * record the cache entry, downgrade to unhealthy only in a catch, attach the
   * application block and map the status to 200 or 503.
   */
  method Check(db: DatabaseProbe, cache: CacheProbe, timestamp: string, config: AppConfig)
    returns (health: HealthReport, statusCode: int)
    ensures health.services.Keys == {"database", "cache"}
    ensures health.services["database"] == DatabaseCheck(db)
    ensures health.services["cache"] == CacheCheck(cache)
    ensures health.status == OverallOf(db, cache)
    ensures health.status == Healthy <==> !db.DbThrows? && !cache.CacheThrows?
    ensures statusCode == StatusCode(health.status)
    ensures statusCode == 200 <==> health.status == Healthy
    ensures health.timestamp == timestamp
    ensures health.application == Application(config.name, config.environment, config.debug, Version)
  {
    var status := Healthy;
    var services: map<string, ServiceCheck> := map[];

    match db {
      case DbOk =>
        services := services["database" := ServiceCheck(Up, "Database connection successful")];
      case DbThrows(msg) =>
        status := Unhealthy;
        services := services["database" := ServiceCheck(Down, "Database connection failed: " + msg)];
    }

    match cache {
      case CacheRead(cacheValue) =>
        services := services["cache" := ServiceCheck(
          if cacheValue == Some(CacheSentinel) then Up else Down,
          if cacheValue == Some(CacheSentinel) then "Cache is working" else "Cache check failed")];
      case CacheThrows(msg) =>
        status := Unhealthy;
        services := services["cache" := ServiceCheck(Down, "Cache check failed: " + msg)];
    }

    var application := Application(config.name, config.environment, config.debug, Version);
    health := HealthReport(status, timestamp, services, application);
    statusCode := if health.status == Healthy then 200 else 503;
  }
}
