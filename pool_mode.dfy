/**
 * How helpers and connections are built and which mode they run in:
 * `RedisentHelper` of redisent/helpers.py, `RedisConnection` of
 * redisent/connection.py and the base `RedisentHelper` of
 * redisent/helpers/__init__.py. Pool objects are foreign: a pool is its
 * kind, the URL it was built for and what `str()` shows of it.
 */
module PoolMode {
  import opened Wrappers
  import opened PyValues
  import opened RedisErrors
  import LegacyHelper

  datatype PoolKind = BlockingPool | AsyncPool

  /** A connection pool: redis-py's `ConnectionPool` or aioredis's `ConnectionsPool`. */
  datatype Pool = Pool(kind: PoolKind, url: string, shown: string)

  /** `format_redis_url`: prefix `redis://` when it is missing. */
  function FormatRedisUrl(url: string): (r: string)
    ensures StartsWith(r, "redis://")
    ensures StartsWith(url, "redis://") ==> r == url
    ensures !StartsWith(url, "redis://") ==> r == "redis://" + url
  {
    if !StartsWith(url, "redis://") then
      var r := "redis://" + url;
      assert r[..8] == "redis://";
      r
    else url
  }

  /** Formatting a formatted URL changes nothing. */
  lemma FormatRedisUrlIdempotent(url: string)
    ensures FormatRedisUrl(FormatRedisUrl(url)) == FormatRedisUrl(url)
  {
  }

  /** `RedisHelper.build_pool` undoes the prefix: a host comes back from its formatted URL. */
  lemma HostOfFormatted(host: string)
    requires !StartsWith(host, "redis://")
    ensures LegacyHelper.HostOf(FormatRedisUrl(host)) == host
  {
    LegacyHelper.HostOfPrefixed(host);
  }

  /** The mode `__init__` settles on: the given one, else async exactly for an aioredis pool. */
  function InferMode(pool: Pool, useAsync: Option<bool>): (b: bool)
    ensures useAsync.Some? ==> b == useAsync.value
    ensures useAsync.None? ==> (b <==> pool.kind == AsyncPool)
  {
    match useAsync
    case Some(b) => b
    case None => pool.kind == AsyncPool
  }

  /** The two context managers the `wrapped_redis` property chooses between. */
  datatype Wrapper = BlockingWrapper | AsyncWrapper

  /** The `wrapped_redis` property: chosen by `use_async` alone. */
  function WrapperFor(useAsync: bool): (w: Wrapper)
    ensures w == AsyncWrapper <==> useAsync
  {
    if !useAsync then BlockingWrapper else AsyncWrapper
  }

  /**
   * What `build` (or `build_async`) passes to the constructor: the given
   * pool, or one built for the formatted URL; `ValueError` with neither.
   * The URL is the one a new pool is built for, and `shown` what `str()`
   * gives of that pool.
   */
  function BuildArgs(pool: Option<Pool>, url: Option<string>, isAsync: bool, shown: string): (r: Result<(Pool, bool), Exc>)
    ensures r.Err? <==> pool.None? && !Given(url)
    ensures r.Err? ==> r.error == Exc(ValueError, "No value provided for \"redis_pool\" or \"redis_url\"")
    ensures r.Ok? ==> r.value.1 == isAsync
    ensures pool.Some? ==> r == Ok((pool.value, isAsync))
    ensures pool.None? && Given(url) ==>
      && r.Ok? && r.value.0.url == FormatRedisUrl(url.value)
      && r.value.0.kind == (if isAsync then AsyncPool else BlockingPool)
  {
    match pool
    case Some(p) => Ok((p, isAsync))
    case None =>
      if !Given(url) then Err(Exc(ValueError, "No value provided for \"redis_pool\" or \"redis_url\""))
      else Ok((Pool(if isAsync then AsyncPool else BlockingPool, FormatRedisUrl(url.value), shown), isAsync))
  }

  /** `RedisentHelper` of redisent/helpers.py. */
  class ModeHelper {
    var redisPool: Pool
    var useAsync: bool

    /** `RedisentHelper(redis_pool, use_async)`. */
    constructor (pool: Pool, useAsync: Option<bool>)
      ensures redisPool == pool && this.useAsync == InferMode(pool, useAsync)
    {
      redisPool := pool;
      this.useAsync := InferMode(pool, useAsync);
    }

    /** The context manager `wrapped_redis` gives. */
    function Wrapped(): Wrapper
      reads this
    {
      WrapperFor(useAsync)
    }
  }

  /** `RedisentHelper.build(redis_pool, redis_url)`: a blocking helper. */
  method Build(pool: Option<Pool>, url: Option<string>, shown: string) returns (r: Result<ModeHelper, Exc>)
    ensures BuildArgs(pool, url, false, shown).Err? ==> r == Err(BuildArgs(pool, url, false, shown).error)
    ensures BuildArgs(pool, url, false, shown).Ok? ==>
      r.Ok? && fresh(r.value) && r.value.redisPool == BuildArgs(pool, url, false, shown).value.0
      && !r.value.useAsync && r.value.Wrapped() == BlockingWrapper
  {
    var args := BuildArgs(pool, url, false, shown);
    if args.Err? {
      return Err(args.error);
    }
    var h := new ModeHelper(args.value.0, Some(false));
    r := Ok(h);
  }

  /** `RedisentHelper.build_async(redis_pool, redis_url)`, awaited: an async helper. */
  method BuildAsync(pool: Option<Pool>, url: Option<string>, shown: string) returns (r: Result<ModeHelper, Exc>)
    ensures BuildArgs(pool, url, true, shown).Err? ==> r == Err(BuildArgs(pool, url, true, shown).error)
    ensures BuildArgs(pool, url, true, shown).Ok? ==>
      r.Ok? && fresh(r.value) && r.value.redisPool == BuildArgs(pool, url, true, shown).value.0
      && r.value.useAsync && r.value.Wrapped() == AsyncWrapper
  {
    var args := BuildArgs(pool, url, true, shown);
    if args.Err? {
      return Err(args.error);
    }
    var h := new ModeHelper(args.value.0, Some(true));
    r := Ok(h);
  }

  /** The error `_wrapped_redis_blocking` raises when the client cannot be built; redisent/errors.py fills in `Unknown`. */
  function BlockingConnectError(op: string, ex: Exc): (e: Exc)
    ensures e.Redis? && e.err.cls == LegacyErrors && e.err.baseException == Some(ex)
    ensures e.err.relatedCommand == Some("Unknown") && e.err.extraAttrs == []
    ensures e.err.message == "Unable to build new Redis connection for " + LegacyHelper.Quoted(op) + ": " + ExcText(ex)
  {
    Redis(NewError(LegacyErrors, "Unable to build new Redis connection for " + LegacyHelper.Quoted(op) + ": " + ExcText(ex), Some(ex), None, None))
  }

  /** The error `_wrapped_redis_blocking` raises when the block raises `ex`. */
  function BlockingCommandError(op: string, ex: Exc): (e: Exc)
    ensures e.Redis? && e.err.cls == LegacyErrors && e.err.baseException == Some(ex) && e.err.extraAttrs == []
    ensures op != "" ==> e.err.relatedCommand == Some(op)
    ensures op == "" ==> e.err.relatedCommand == Some("Unknown")
    ensures e.err.message == "Error executing Redis command " + LegacyHelper.Quoted(op) + ": " + ExcText(ex)
  {
    Redis(NewError(LegacyErrors, "Error executing Redis command " + LegacyHelper.Quoted(op) + ": " + ExcText(ex), Some(ex), Some(op), None))
  }

  /** Only an error raised inside the block names the op as its command. */
  lemma BlockingErrorsTellCausesApart(op: string, ex: Exc)
    requires op != "" && op != "Unknown"
    ensures BlockingConnectError(op, ex).err.relatedCommand != BlockingCommandError(op, ex).err.relatedCommand
    ensures Str(BlockingCommandError(op, ex).err) == "Redis Error with command " + LegacyHelper.Quoted(op) + ": " + BlockingCommandError(op, ex).err.message
  {
    var e := BlockingCommandError(op, ex).err;
    LegacyHelper.NamedHeadQuotes(op, e.message);
  }

  // ------------------------------------------------------ RedisConnection

  /** `RedisConnection` of redisent/connection.py. */
  class RedisConnection {
    var redisPool: Pool
    var isAsync: bool

    /** `RedisConnection(redis_pool, is_async)`. */
    constructor (pool: Pool, isAsync: Option<bool>)
      ensures redisPool == pool && this.isAsync == InferMode(pool, isAsync)
    {
      redisPool := pool;
      this.isAsync := InferMode(pool, isAsync);
    }

    /** `repr(conn)`. */
    function Repr(): (s: string)
      reads this
      ensures StartsWith(s, "RedisConnection(redis_pool=\"") && EndsWith(s, "\")")
      ensures |s| == |"RedisConnection(redis_pool=\"\")"| + |redisPool.shown|
      ensures s[|"RedisConnection(redis_pool=\""|..|s| - 2] == redisPool.shown
    {
      var head := "RedisConnection(redis_pool=\"";
      var s := head + redisPool.shown + "\")";
      assert s[..|head|] == head;
      assert s[|s| - 2..] == "\")";
      s
    }
  }

  /** `RedisConnection.build(redis_url)` (and `build_async`, awaited, with `isAsync`). */
  method BuildConnection(url: string, isAsync: bool, shown: string) returns (c: RedisConnection)
    ensures fresh(c) && c.isAsync == isAsync
    ensures c.redisPool == Pool(if isAsync then AsyncPool else BlockingPool, FormatRedisUrl(url), shown)
    ensures StartsWith(c.redisPool.url, "redis://")
  {
    var u := url;
    if !StartsWith(u, "redis://") {
      u := "redis://" + u;
    }
    c := new RedisConnection(Pool(if isAsync then AsyncPool else BlockingPool, u, shown), Some(isAsync));
  }

  // ------------------------------------------- redisent/helpers/__init__.py

  /** The base `RedisentHelper` of redisent/helpers/__init__.py. */
  class PackageHelper {
    var redisPool: Pool

    /** `RedisentHelper(redis_pool)`: the pool is kept as given. */
    constructor (pool: Pool)
      ensures redisPool == pool
    {
      redisPool := pool;
    }
  }

  /** The base `build`: every URL raises `NotImplementedError`. */
  function PackageBuild(url: string): (r: Result<Pool, Exc>)
    ensures r.Err? && r.error.Exc? && r.error.kind == NotImplementedError
  {
    Err(Exc(NotImplementedError, "Subclasses of RedisentHelper must implement the class build method"))
  }
}
