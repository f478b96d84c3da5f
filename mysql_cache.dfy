/**
 * The cache facade: checks the options once when it is built, rejects null
 * arguments, forwards each call to the operation layer, and after each call
 * runs the sweep of expired rows when more than the deletion interval has
 * passed since the last sweep.
 */
module Cache {
  import opened Wrappers
  import opened DotNet
  import opened CacheTable
  import opened Parameters
  import opened Operations
  import opened CacheOptions

  /** Five minutes. */
  const MinimumExpiredItemsDeletionInterval := 300
  /** Thirty minutes. */
  const DefaultExpiredItemsDeletionInterval := 1800

  const ReadConnectionStringMessage := "ReadConnectionString cannot be empty or null."
  const SchemaNameMessage := "SchemaName cannot be empty or null."
  const TableNameMessage := "TableName cannot be empty or null."
  const IntervalMessage := "ExpiredItemsDeletionInterval cannot be less the minimum value of 5 minutes."
  const DefaultSlidingMessage := "The sliding expiration value must be positive."

  /** The checks of the constructor, in order; the first that fails is reported. */
  function ValidateCacheOptions(readConnectionString: Option<string>, schemaName: Option<string>, tableName: Option<string>,
                                expiredItemsDeletionInterval: Option<int>, defaultSlidingExpiration: int): (r: Outcome<Exception>)
    ensures r.Pass? <==>
      && !IsNullOrEmpty(readConnectionString)
      && !IsNullOrEmpty(schemaName)
      && !IsNullOrEmpty(tableName)
      && (expiredItemsDeletionInterval.None? || expiredItemsDeletionInterval.value >= MinimumExpiredItemsDeletionInterval)
      && defaultSlidingExpiration > 0
    ensures IsNullOrEmpty(readConnectionString) ==> r == Fail(Argument(ReadConnectionStringMessage))
    ensures !IsNullOrEmpty(readConnectionString) && IsNullOrEmpty(schemaName) ==> r == Fail(Argument(SchemaNameMessage))
    ensures !IsNullOrEmpty(readConnectionString) && !IsNullOrEmpty(schemaName) && IsNullOrEmpty(tableName) ==>
      r == Fail(Argument(TableNameMessage))
    ensures && !IsNullOrEmpty(readConnectionString) && !IsNullOrEmpty(schemaName) && !IsNullOrEmpty(tableName)
            && expiredItemsDeletionInterval.Some? && expiredItemsDeletionInterval.value < MinimumExpiredItemsDeletionInterval ==>
      r == Fail(Argument(IntervalMessage))
    ensures && !IsNullOrEmpty(readConnectionString) && !IsNullOrEmpty(schemaName) && !IsNullOrEmpty(tableName)
            && (expiredItemsDeletionInterval.None? || expiredItemsDeletionInterval.value >= MinimumExpiredItemsDeletionInterval)
            && defaultSlidingExpiration <= 0 ==>
      r == Fail(ArgumentOutOfRange("DefaultSlidingExpiration", DefaultSlidingMessage))
  {
    if IsNullOrEmpty(readConnectionString) then Fail(Argument(ReadConnectionStringMessage))
    else if IsNullOrEmpty(schemaName) then Fail(Argument(SchemaNameMessage))
    else if IsNullOrEmpty(tableName) then Fail(Argument(TableNameMessage))
    else if expiredItemsDeletionInterval.Some? && expiredItemsDeletionInterval.value < MinimumExpiredItemsDeletionInterval then
      Fail(Argument(IntervalMessage))
    else if defaultSlidingExpiration <= 0 then
      Fail(ArgumentOutOfRange("DefaultSlidingExpiration", DefaultSlidingMessage))
    else
      Pass
  }

  /** `(utcNow - lastScan) > interval`: strictly more than the interval has passed. */
  predicate SweepDue(lastScan: int, utcNow: int, interval: int) {
    utcNow - lastScan > interval
  }

  /** The last scan after a gate check at `utcNow`. */
  function NextScan(lastScan: int, utcNow: int, interval: int): (r: int)
    ensures SweepDue(lastScan, utcNow, interval) ==> r == utcNow
    ensures !SweepDue(lastScan, utcNow, interval) ==> r == lastScan
  {
    if SweepDue(lastScan, utcNow, interval) then utcNow else lastScan
  }

  /** The table after a gate check at `utcNow`. */
  function SweepTable(t: Table, lastScan: int, utcNow: int, interval: int): Table {
    if SweepDue(lastScan, utcNow, interval) then DeleteExpiredTable(t, utcNow) else t
  }

  class MySqlCache {
    const operations: DatabaseOperations
    /** In seconds. */
    const expiredItemsDeletionInterval: int
    const defaultSlidingExpiration: int
    /** When the last sweep started; initially the zero instant. */
    var lastExpirationScan: int

    constructor (operations: DatabaseOperations, expiredItemsDeletionInterval: int, defaultSlidingExpiration: int)
      ensures this.operations == operations
      ensures this.expiredItemsDeletionInterval == expiredItemsDeletionInterval
      ensures this.defaultSlidingExpiration == defaultSlidingExpiration
      ensures lastExpirationScan == 0
    {
      this.operations := operations;
      this.expiredItemsDeletionInterval := expiredItemsDeletionInterval;
      this.defaultSlidingExpiration := defaultSlidingExpiration;
      lastExpirationScan := 0;
    }

    /**
     * `new MySqlCache(options)`: reads the options through `Value`, checks
     * them, and builds the operation layer for the runtime it runs on.
     */
    static method Create(options: MySqlCacheOptions, isMono: bool, store: Store) returns (r: Result<MySqlCache, Exception>)
      modifies options
      ensures options.Strings() == Normalize(old(options.Strings()))
      ensures options.expiredItemsDeletionInterval == old(options.expiredItemsDeletionInterval)
      ensures options.schemaName == old(options.schemaName) && options.tableName == old(options.tableName)
      ensures options.defaultSlidingExpiration == old(options.defaultSlidingExpiration)
      ensures var check := ValidateCacheOptions(options.readConnectionString, options.schemaName, options.tableName,
                                                options.expiredItemsDeletionInterval, options.defaultSlidingExpiration);
        && (r.Failure? <==> check.Fail?)
        && (r.Failure? ==> r.error == check.error)
      ensures r.Success? ==>
        && fresh(r.value) && fresh(r.value.operations)
        && r.value.expiredItemsDeletionInterval == options.expiredItemsDeletionInterval.GetOr(DefaultExpiredItemsDeletionInterval)
        && r.value.defaultSlidingExpiration == options.defaultSlidingExpiration
        && r.value.lastExpirationScan == 0
        && r.value.operations.readConnectionString == options.readConnectionString
        && r.value.operations.writeConnectionString == options.writeConnectionString
        && Some(r.value.operations.schemaName) == options.schemaName
        && Some(r.value.operations.tableName) == options.tableName
        && r.value.operations.isMono == isMono
        && r.value.operations.store == store
        && r.value.operations.commands == []
    {
      var cacheOptions := options.Value();
      var check := ValidateCacheOptions(cacheOptions.readConnectionString, cacheOptions.schemaName, cacheOptions.tableName,
                                        cacheOptions.expiredItemsDeletionInterval, cacheOptions.defaultSlidingExpiration);
      if check.Fail? {
        return Failure(check.error);
      }
      var interval := cacheOptions.expiredItemsDeletionInterval.GetOr(DefaultExpiredItemsDeletionInterval);
      var operations := new DatabaseOperations(
        cacheOptions.readConnectionString, cacheOptions.writeConnectionString,
        cacheOptions.schemaName.value, cacheOptions.tableName.value, isMono, store);
      var cache := new MySqlCache(operations, interval, cacheOptions.defaultSlidingExpiration);
      r := Success(cache);
    }

    /** The statements a gate check at `utcNow` sends. */
    function SweepCommands(lastScan: int, utcNow: int): seq<Command> {
      if SweepDue(lastScan, utcNow, expiredItemsDeletionInterval) then
        [Command(operations.writeConnectionString, operations.queries.deleteExpiredCacheItems, [UtcNowParameter(utcNow)])]
      else
        []
    }

    /**
     * The gate: when strictly more than the interval has passed since the last
     * sweep, record this instant as the last sweep and then delete every
     * expired row; otherwise do nothing.
     */
    method ScanForExpiredItemsIfRequired(utcNow: int)
      modifies this, operations, operations.store
      ensures lastExpirationScan == NextScan(old(lastExpirationScan), utcNow, expiredItemsDeletionInterval)
      ensures operations.store.rows ==
        SweepTable(old(operations.store.rows), old(lastExpirationScan), utcNow, expiredItemsDeletionInterval)
      ensures operations.commands == old(operations.commands) + SweepCommands(old(lastExpirationScan), utcNow)
    {
      if utcNow - lastExpirationScan > expiredItemsDeletionInterval {
        lastExpirationScan := utcNow;
        var affected := operations.DeleteExpiredCacheItems(utcNow);
      }
    }

    method Get(key: Option<string>, utcNow: int) returns (r: Result<Option<Bytes>, Exception>)
      modifies this, operations, operations.store
      ensures key.None? ==> r == Failure(ArgumentNull("key"))
      ensures key.None? ==> unchanged(this, operations, operations.store)
      ensures key.Some? ==> r == Success(ReadValue(old(operations.store.rows), key.value, true, utcNow))
      ensures key.Some? ==> (operations.store.rows ==
        SweepTable(TouchTable(old(operations.store.rows), key.value, utcNow), old(lastExpirationScan), utcNow, expiredItemsDeletionInterval))
      ensures key.Some? ==> lastExpirationScan == NextScan(old(lastExpirationScan), utcNow, expiredItemsDeletionInterval)
      ensures key.Some? ==> (operations.commands ==
        old(operations.commands)
        + [Command(operations.ReadConnection(), operations.queries.getCacheItem, ReadParameters(key.value, utcNow))]
        + SweepCommands(old(lastExpirationScan), utcNow))
    {
      if key.None? {
        return Failure(ArgumentNull("key"));
      }
      var value := operations.GetCacheItem(key.value, true, utcNow);
      ScanForExpiredItemsIfRequired(utcNow);
      r := Success(value);
    }

    /** As `Get`; on Mono the same statement text, through the asynchronous read. */
    method GetAsync(key: Option<string>, utcNow: int) returns (r: Result<Option<Bytes>, Exception>)
      modifies this, operations, operations.store
      ensures key.None? ==> r == Failure(ArgumentNull("key"))
      ensures key.None? ==> unchanged(this, operations, operations.store)
      ensures key.Some? ==> r == Success(ReadValue(old(operations.store.rows), key.value, true, utcNow))
      ensures key.Some? ==> (operations.store.rows ==
        SweepTable(TouchTable(old(operations.store.rows), key.value, utcNow), old(lastExpirationScan), utcNow, expiredItemsDeletionInterval))
      ensures key.Some? ==> lastExpirationScan == NextScan(old(lastExpirationScan), utcNow, expiredItemsDeletionInterval)
      ensures key.Some? ==> (operations.commands ==
        old(operations.commands)
        + [Command(operations.ReadConnection(), operations.queries.getCacheItem, ReadParameters(key.value, utcNow))]
        + SweepCommands(old(lastExpirationScan), utcNow))
    {
      if key.None? {
        return Failure(ArgumentNull("key"));
      }
      var value := operations.GetCacheItemAsync(key.value, true, utcNow);
      ScanForExpiredItemsIfRequired(utcNow);
      r := Success(value);
    }

    method Refresh(key: Option<string>, utcNow: int) returns (r: Outcome<Exception>)
      modifies this, operations, operations.store
      ensures key.None? ==> r == Fail(ArgumentNull("key"))
      ensures key.None? ==> unchanged(this, operations, operations.store)
      ensures key.Some? ==> r == Pass
      ensures key.Some? ==> (operations.store.rows ==
        SweepTable(TouchTable(old(operations.store.rows), key.value, utcNow), old(lastExpirationScan), utcNow, expiredItemsDeletionInterval))
      ensures key.Some? ==> lastExpirationScan == NextScan(old(lastExpirationScan), utcNow, expiredItemsDeletionInterval)
      ensures key.Some? ==> (operations.commands ==
        old(operations.commands)
        + [Command(operations.ReadConnection(), operations.queries.getCacheItemWithoutValue, ReadParameters(key.value, utcNow))]
        + SweepCommands(old(lastExpirationScan), utcNow))
    {
      if key.None? {
        return Fail(ArgumentNull("key"));
      }
      operations.RefreshCacheItem(key.value, utcNow);
      ScanForExpiredItemsIfRequired(utcNow);
      r := Pass;
    }

    /** As `Refresh`, except that on Mono the touch is sent together with the SELECT. */
    method RefreshAsync(key: Option<string>, utcNow: int) returns (r: Outcome<Exception>)
      modifies this, operations, operations.store
      ensures key.None? ==> r == Fail(ArgumentNull("key"))
      ensures key.None? ==> unchanged(this, operations, operations.store)
      ensures key.Some? ==> r == Pass
      ensures key.Some? ==> (operations.store.rows ==
        SweepTable(TouchTable(old(operations.store.rows), key.value, utcNow), old(lastExpirationScan), utcNow, expiredItemsDeletionInterval))
      ensures key.Some? ==> lastExpirationScan == NextScan(old(lastExpirationScan), utcNow, expiredItemsDeletionInterval)
      ensures key.Some? ==> (operations.commands ==
        old(operations.commands)
        + [Command(operations.ReadConnection(),
                   if operations.isMono then operations.queries.getCacheItem else operations.queries.getCacheItemWithoutValue,
                   ReadParameters(key.value, utcNow))]
        + SweepCommands(old(lastExpirationScan), utcNow))
    {
      if key.None? {
        return Fail(ArgumentNull("key"));
      }
      operations.RefreshCacheItemAsync(key.value, utcNow);
      ScanForExpiredItemsIfRequired(utcNow);
      r := Pass;
    }

    method Remove(key: Option<string>, utcNow: int) returns (r: Outcome<Exception>)
      modifies this, operations, operations.store
      ensures key.None? ==> r == Fail(ArgumentNull("key"))
      ensures key.None? ==> unchanged(this, operations, operations.store)
      ensures key.Some? ==> r == Pass
      ensures key.Some? ==> (operations.store.rows ==
        SweepTable(old(operations.store.rows) - {key.value}, old(lastExpirationScan), utcNow, expiredItemsDeletionInterval))
      ensures key.Some? ==> lastExpirationScan == NextScan(old(lastExpirationScan), utcNow, expiredItemsDeletionInterval)
      ensures key.Some? ==> (operations.commands ==
        old(operations.commands)
        + [Command(operations.writeConnectionString, operations.queries.deleteCacheItem, [CacheItemIdParameter(key.value)])]
        + SweepCommands(old(lastExpirationScan), utcNow))
    {
      if key.None? {
        return Fail(ArgumentNull("key"));
      }
      operations.DeleteCacheItem(key.value);
      ScanForExpiredItemsIfRequired(utcNow);
      r := Pass;
    }

    /**
     * A write: key, value and options must not be null. When the write fails,
     * the exception is passed on and the gate is not checked.
     */
    method Set(key: Option<string>, value: Option<Bytes>, options: Option<EntryOptions>, utcNow: int,
               fault: Option<MySqlException>) returns (r: Outcome<Exception>)
      modifies this, operations, operations.store
      ensures key.None? ==> r == Fail(ArgumentNull("key"))
      ensures key.Some? && value.None? ==> r == Fail(ArgumentNull("value"))
      ensures key.Some? && value.Some? && options.None? ==> r == Fail(ArgumentNull("options"))
      ensures key.None? || value.None? || options.None? ==> unchanged(this, operations, operations.store)
      ensures key.Some? && value.Some? && options.Some? ==>
        var written := SetTable(old(operations.store.rows), key.value, value.value, utcNow, options.value, fault);
        && r == SetOutcome(utcNow, options.value, fault)
        && (r.Fail? ==> operations.store.rows == written && lastExpirationScan == old(lastExpirationScan))
        && (r.Pass? ==> operations.store.rows == SweepTable(written, old(lastExpirationScan), utcNow, expiredItemsDeletionInterval))
        && (r.Pass? ==> lastExpirationScan == NextScan(old(lastExpirationScan), utcNow, expiredItemsDeletionInterval))
        && operations.commands ==
             old(operations.commands)
             + operations.SetCommands(key.value, value.value, options.value, utcNow)
             + (if r.Pass? then SweepCommands(old(lastExpirationScan), utcNow) else [])
    {
      if key.None? {
        return Fail(ArgumentNull("key"));
      }
      if value.None? {
        return Fail(ArgumentNull("value"));
      }
      if options.None? {
        return Fail(ArgumentNull("options"));
      }
      r := operations.SetCacheItem(key.value, value.value, options.value, utcNow, fault);
      if r.Fail? {
        return r;
      }
      ScanForExpiredItemsIfRequired(utcNow);
    }
  }

  // ---------------------------------------------------------------- the gate over time

  /** The clock readings, among successive gate checks, at which a sweep runs. */
  function SweepInstants(lastScan: int, readings: seq<int>, interval: int): seq<int>
    decreases |readings|
  {
    if readings == [] then []
    else if SweepDue(lastScan, readings[0], interval) then [readings[0]] + SweepInstants(readings[0], readings[1..], interval)
    else SweepInstants(lastScan, readings[1..], interval)
  }

  /** Two checks at the same clock reading sweep at most once. */
  lemma AtMostOneSweepPerInstant(lastScan: int, utcNow: int, interval: int)
    requires interval >= 0
    ensures !SweepDue(NextScan(lastScan, utcNow, interval), utcNow, interval) || !SweepDue(lastScan, utcNow, interval)
    ensures SweepDue(lastScan, utcNow, interval) ==> !SweepDue(NextScan(lastScan, utcNow, interval), utcNow, interval)
  {
  }

  /**
   * Whatever the order of the clock readings, every sweep starts strictly
   * more than the interval after the previous one (the first, after the
   * initial last scan), and each sweep instant is one of the readings.
   */
  lemma {:induction false} SweepsAreSpaced(lastScan: int, readings: seq<int>, interval: int)
    decreases |readings|
    ensures var s := SweepInstants(lastScan, readings, interval);
      && |s| <= |readings|
      && (|s| > 0 ==> s[0] - lastScan > interval)
      && (forall i :: 0 < i < |s| ==> s[i] - s[i - 1] > interval)
      && (forall i :: 0 <= i < |s| ==> s[i] in readings)
  {
    if readings != [] {
      var rest := readings[1..];
      if SweepDue(lastScan, readings[0], interval) {
        SweepsAreSpaced(readings[0], rest, interval);
        var s' := SweepInstants(readings[0], rest, interval);
        var s := [readings[0]] + s';
        assert forall i :: 0 < i < |s| ==> s[i] == s'[i - 1];
        assert forall x :: x in rest ==> x in readings;
      } else {
        SweepsAreSpaced(lastScan, rest, interval);
        assert forall x :: x in rest ==> x in readings;
      }
    }
  }
}
