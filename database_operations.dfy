/**
 * The operation layer between the cache facade and the table: resolving and
 * checking the expiration options of a write, binding parameters, choosing
 * the connection and the statement text, and what each call does to the
 * table. One class covers both the standard runtime and the reduced-capability
 * runtime (`isMono`), which overrides the reads and the write.
 */
module Operations {
  import opened Wrappers
  import opened DotNet
  import opened MySqlQueries
  import opened CacheTable
  import opened Parameters
  import MonoParameters

  /** A duration that `DistributedCacheEntryOptions` accepts: strictly positive, in seconds. */
  type PositiveSeconds = x: int | x > 0 witness 1

  /** `DistributedCacheEntryOptions`: instants and durations in whole seconds. */
  datatype EntryOptions = EntryOptions(
    absoluteExpiration: Option<int>,
    absoluteExpirationRelativeToNow: Option<PositiveSeconds>,
    slidingExpiration: Option<PositiveSeconds>)

  /** `MySqlErrorCode.DuplicateKey` (ER_DUP_KEY). */
  const DuplicateKeyErrorId := 1022

  const AbsoluteExpirationInPastMessage := "The absolute expiration value must be in the future."
  const NoExpirationMessage := "Either absolute or sliding expiration needs to be provided."

  // ---------------------------------------------------------------- option checks

  /**
   * The absolute expiration of a write: a relative one wins and is added to
   * now without further check; an explicit one must lie after now.
   */
  function GetAbsoluteExpiration(utcNow: int, options: EntryOptions): (r: Result<Option<int>, Exception>)
    ensures r.Failure? <==>
      && options.absoluteExpirationRelativeToNow.None?
      && options.absoluteExpiration.Some?
      && options.absoluteExpiration.value <= utcNow
    ensures r.Failure? ==> r.error == InvalidOperation(AbsoluteExpirationInPastMessage)
    ensures options.absoluteExpirationRelativeToNow.Some? ==>
      r == Success(Some(utcNow + options.absoluteExpirationRelativeToNow.value))
    ensures r.Success? ==>
      (r.value.None? <==> options.absoluteExpirationRelativeToNow.None? && options.absoluteExpiration.None?)
    ensures r.Success? && r.value.Some? ==> r.value.value > utcNow
    ensures r.Success? && options.absoluteExpirationRelativeToNow.None? ==> r.value == options.absoluteExpiration
  {
    if options.absoluteExpirationRelativeToNow.Some? then
      Success(Some(utcNow + options.absoluteExpirationRelativeToNow.value))
    else if options.absoluteExpiration.Some? then
      if options.absoluteExpiration.value <= utcNow then
        Failure(InvalidOperation(AbsoluteExpirationInPastMessage))
      else
        Success(options.absoluteExpiration)
    else
      Success(None)
  }

  /** A write needs a sliding window or a resolved absolute expiration. */
  function ValidateOptions(slidingExpiration: Option<PositiveSeconds>, absoluteExpiration: Option<int>): (r: Outcome<Exception>)
    ensures r.Fail? <==> slidingExpiration.None? && absoluteExpiration.None?
    ensures r.Fail? ==> r.error == InvalidOperation(NoExpirationMessage)
  {
    if slidingExpiration.None? && absoluteExpiration.None? then
      Fail(InvalidOperation(NoExpirationMessage))
    else
      Pass
  }

  /** LINQ `Any(error => error.Code == code)` over the codes of an error list. */
  function AnyHasCode(codes: seq<int>, code: int): (r: bool)
    ensures r <==> exists i :: 0 <= i < |codes| && codes[i] == code
  {
    if codes == [] then false
    else if codes[0] == code then true
    else
      var r := AnyHasCode(codes[1..], code);
      assert r ==> codes[1 + IndexOfCode(codes[1..], code)] == code;
      r
  }

  /** The position of the first occurrence of `code` in `codes`. */
  function IndexOfCode(codes: seq<int>, code: int): (i: nat)
    requires exists i :: 0 <= i < |codes| && codes[i] == code
    ensures i < |codes| && codes[i] == code
  {
    if codes[0] == code then 0
    else
      assert exists i :: 0 <= i < |codes[1..]| && codes[1..][i] == code by {
        var k :| 0 <= k < |codes| && codes[k] == code;
        assert codes[1..][k - 1] == code;
      }
      1 + IndexOfCode(codes[1..], code)
  }

  /**
   * Whether a driver exception reports a duplicate key: never when it carries
   * no data; by any of its listed errors when its data is an error list;
   * otherwise by its own number.
   */
  function IsDuplicateKeyException(ex: MySqlException): (r: bool)
    ensures ex.data.None? ==> !r
    ensures ex.data == Some(OtherData) ==> (r <==> ex.number == DuplicateKeyErrorId)
    ensures ex.data.Some? && ex.data.value.ErrorList? ==>
      (r <==> exists i :: 0 <= i < |ex.data.value.codes| && ex.data.value.codes[i] == DuplicateKeyErrorId)
  {
    if ex.data.Some? then
      if ex.data.value.ErrorList? then AnyHasCode(ex.data.value.codes, DuplicateKeyErrorId)
      else ex.number == DuplicateKeyErrorId
    else
      false
  }

  // ---------------------------------------------------------------- specification of the calls

  /** A statement as sent: the connection string it was opened on, its text, its parameters. */
  datatype Command = Command(connectionString: Option<string>, text: string, parameters: seq<Parameter>)

  /** Both checks of a write, in order: the resolved absolute expiration, or the exception. */
  function ResolveExpiration(utcNow: int, options: EntryOptions): (r: Result<Option<int>, Exception>)
    ensures r.Success? ==> options.slidingExpiration.Some? || r.value.Some?
    ensures r.Success? && r.value.Some? ==> r.value.value > utcNow
    ensures r.Success? ==> r == GetAbsoluteExpiration(utcNow, options)
    ensures r.Failure? <==>
      || GetAbsoluteExpiration(utcNow, options).Failure?
      || (options.slidingExpiration.None? && GetAbsoluteExpiration(utcNow, options).value.None?)
    ensures GetAbsoluteExpiration(utcNow, options).Failure? ==> r == Failure(InvalidOperation(AbsoluteExpirationInPastMessage))
    ensures GetAbsoluteExpiration(utcNow, options).Success? && r.Failure? ==> r == Failure(InvalidOperation(NoExpirationMessage))
  {
    var absolute := GetAbsoluteExpiration(utcNow, options);
    if absolute.Failure? then absolute
    else
      var valid := ValidateOptions(options.slidingExpiration, absolute.value);
      if valid.Fail? then Failure(valid.error) else absolute
  }

  /** What a write reports: the failed check, nothing for a duplicate key, or the driver error. */
  function SetOutcome(utcNow: int, options: EntryOptions, fault: Option<MySqlException>): Outcome<Exception> {
    var resolved := ResolveExpiration(utcNow, options);
    if resolved.Failure? then Fail(resolved.error)
    else if fault.Some? && !IsDuplicateKeyException(fault.value) then Fail(MySql(fault.value))
    else Pass
  }

  /** The table after a write: upserted when both checks pass and the statement succeeds. */
  function SetTable(t: Table, key: string, value: Bytes, utcNow: int, options: EntryOptions, fault: Option<MySqlException>): Table {
    var resolved := ResolveExpiration(utcNow, options);
    if resolved.Failure? || fault.Some? then t
    else UpsertTable(t, key, value, options.slidingExpiration, resolved.value, utcNow)
  }

  /** The parameters of the upsert, in the order they are added. */
  function UpsertParameters(key: string, value: Bytes, sliding: Option<int>, absolute: Option<int>, kind: DateTimeKind, utcNow: int): seq<Parameter> {
    [CacheItemIdParameter(key), CacheItemValueParameter(Some(value)), SlidingExpirationParameter(sliding),
     AbsoluteExpirationParameter(absolute, kind), UtcNowParameter(utcNow)]
  }

  /** The parameters of a read or a refresh. */
  function ReadParameters(key: string, utcNow: int): seq<Parameter> {
    [CacheItemIdParameter(key), UtcNowParameter(utcNow)]
  }

  /** Touch, then SELECT; the value is returned only when asked for. */
  function ReadValue(t: Table, key: string, includeValue: bool, utcNow: int): Option<Bytes> {
    var row := SelectRow(TouchTable(t, key, utcNow), key, utcNow);
    if includeValue && row.Some? then Some(row.value.value) else None
  }

  // ---------------------------------------------------------------- the operations

  class DatabaseOperations {
    const readConnectionString: Option<string>
    const writeConnectionString: Option<string>
    const schemaName: string
    const tableName: string
    const queries: Queries
    /** Whether this is the variant for the reduced-capability runtime. */
    const isMono: bool
    /** The database the connections reach. */
    const store: Store
    /** Every statement sent so far, oldest first. */
    var commands: seq<Command>

    constructor (readConnectionString: Option<string>, writeConnectionString: Option<string>,
                 schemaName: string, tableName: string, isMono: bool, store: Store)
      ensures this.readConnectionString == readConnectionString
      ensures this.writeConnectionString == writeConnectionString
      ensures this.schemaName == schemaName && this.tableName == tableName
      ensures queries == NewQueries(schemaName, tableName)
      ensures this.isMono == isMono && this.store == store
      ensures commands == []
    {
      this.readConnectionString := readConnectionString;
      this.writeConnectionString := writeConnectionString;
      this.schemaName := schemaName;
      this.tableName := tableName;
      this.queries := NewQueries(schemaName, tableName);
      this.isMono := isMono;
      this.store := store;
      commands := [];
    }

    /** Reads go through the read connection on Mono, through the write connection otherwise. */
    function ReadConnection(): (c: Option<string>)
      ensures isMono ==> c == readConnectionString
      ensures !isMono ==> c == writeConnectionString
    {
      if isMono then readConnectionString else writeConnectionString
    }

    /** The absolute expiration is bound by `.UtcDateTime` on Mono and by `.DateTime` otherwise. */
    function AbsoluteKind(): DateTimeKind {
      if isMono then Utc else Unspecified
    }

    /** The statements a write sends: the upsert, once both checks have passed; none otherwise. */
    function SetCommands(key: string, value: Bytes, options: EntryOptions, utcNow: int): seq<Command> {
      var resolved := ResolveExpiration(utcNow, options);
      if resolved.Failure? then []
      else [Command(writeConnectionString, queries.setCacheItem,
                    UpsertParameters(key, value, options.slidingExpiration, resolved.value, AbsoluteKind(), utcNow))]
    }

    method DeleteCacheItem(key: string)
      modifies this, store
      ensures store.rows == old(store.rows) - {key}
      ensures commands == old(commands) + [Command(writeConnectionString, queries.deleteCacheItem, [CacheItemIdParameter(key)])]
    {
      var parameters := new ParameterCollection();
      parameters := AddCacheItemId(parameters, key);
      assert parameters.items == [CacheItemIdParameter(key)];
      commands := commands + [Command(writeConnectionString, queries.deleteCacheItem, parameters.items)];
      var affected := store.Delete(key);
    }

    /**
     * A read (includeValue) runs the touch and the SELECT; a refresh runs the
     * touch alone. Either way the touch is applied; the value comes back only
     * for a read of a row the SELECT finds.
     */
    method GetCacheItem(key: string, includeValue: bool, utcNow: int) returns (value: Option<Bytes>)
      modifies this, store
      ensures value == ReadValue(old(store.rows), key, includeValue, utcNow)
      ensures store.rows == TouchTable(old(store.rows), key, utcNow)
      ensures commands == old(commands) +
        [Command(ReadConnection(), if includeValue then queries.getCacheItem else queries.getCacheItemWithoutValue,
                 ReadParameters(key, utcNow))]
    {
      var query;
      if includeValue {
        query := queries.getCacheItem;
      } else {
        query := queries.getCacheItemWithoutValue;
      }
      value := None;
      var parameters := new ParameterCollection();
      parameters := AddCacheItemId(parameters, key);
      parameters := AddWithValue(parameters, "UtcNow", DateTime, Time(utcNow, Utc));
      assert parameters.items == ReadParameters(key, utcNow);
      commands := commands + [Command(ReadConnection(), query, parameters.items)];
      store.Touch(key, utcNow);
      var row := store.Select(key, utcNow);
      if row.Some? {
        if includeValue {
          value := Some(row.value.value);
        }
      } else {
        return None;
      }
    }

    /**
     * The asynchronous read. On Mono it sends the touch and the SELECT even
     * for a refresh, so the text differs from the synchronous call; the table
     * and the returned value do not.
     */
    method GetCacheItemAsync(key: string, includeValue: bool, utcNow: int) returns (value: Option<Bytes>)
      modifies this, store
      ensures value == ReadValue(old(store.rows), key, includeValue, utcNow)
      ensures store.rows == TouchTable(old(store.rows), key, utcNow)
      ensures commands == old(commands) +
        [Command(ReadConnection(), if includeValue || isMono then queries.getCacheItem else queries.getCacheItemWithoutValue,
                 ReadParameters(key, utcNow))]
    {
      var query;
      if includeValue || isMono {
        query := queries.getCacheItem;
      } else {
        query := queries.getCacheItemWithoutValue;
      }
      value := None;
      var parameters := new ParameterCollection();
      parameters := AddCacheItemId(parameters, key);
      parameters := AddWithValue(parameters, "UtcNow", DateTime, Time(utcNow, Utc));
      assert parameters.items == ReadParameters(key, utcNow);
      commands := commands + [Command(ReadConnection(), query, parameters.items)];
      store.Touch(key, utcNow);
      var row := store.Select(key, utcNow);
      if row.Some? {
        if includeValue {
          value := Some(row.value.value);
        }
      } else {
        return None;
      }
    }

    /** A read without the value, its result discarded. */
    method RefreshCacheItem(key: string, utcNow: int)
      modifies this, store
      ensures store.rows == TouchTable(old(store.rows), key, utcNow)
      ensures commands == old(commands) + [Command(ReadConnection(), queries.getCacheItemWithoutValue, ReadParameters(key, utcNow))]
    {
      var value := GetCacheItem(key, false, utcNow);
    }

    method RefreshCacheItemAsync(key: string, utcNow: int)
      modifies this, store
      ensures store.rows == TouchTable(old(store.rows), key, utcNow)
      ensures commands == old(commands) +
        [Command(ReadConnection(), if isMono then queries.getCacheItem else queries.getCacheItemWithoutValue,
                 ReadParameters(key, utcNow))]
    {
      var value := GetCacheItemAsync(key, false, utcNow);
    }

    /** The sweep: one delete of every row expired at the given clock reading, reporting how many went. */
    method DeleteExpiredCacheItems(utcNow: int) returns (affectedRowCount: nat)
      modifies this, store
      ensures store.rows == DeleteExpiredTable(old(store.rows), utcNow)
      ensures affectedRowCount == |ExpiredIds(old(store.rows), utcNow)|
      ensures commands == old(commands) + [Command(writeConnectionString, queries.deleteExpiredCacheItems, [UtcNowParameter(utcNow)])]
    {
      var parameters := new ParameterCollection();
      parameters := AddWithValue(parameters, "UtcNow", DateTime, Time(utcNow, Utc));
      assert parameters.items == [UtcNowParameter(utcNow)];
      commands := commands + [Command(writeConnectionString, queries.deleteExpiredCacheItems, parameters.items)];
      affectedRowCount := store.DeleteExpired(utcNow);
    }

    /**
     * A write. Both checks run before any statement is sent. `fault` is the
     * driver error the upsert raises, if any: a duplicate key is ignored,
     * anything else is passed on; a failed statement leaves the table as it was.
     */
    method SetCacheItem(key: string, value: Bytes, options: EntryOptions, utcNow: int, fault: Option<MySqlException>)
      returns (outcome: Outcome<Exception>)
      modifies this, store
      ensures outcome == SetOutcome(utcNow, options, fault)
      ensures store.rows == SetTable(old(store.rows), key, value, utcNow, options, fault)
      ensures ResolveExpiration(utcNow, options).Failure? ==> commands == old(commands)
      ensures ResolveExpiration(utcNow, options).Success? ==>
        commands == old(commands) +
          [Command(writeConnectionString, queries.setCacheItem,
                   UpsertParameters(key, value, options.slidingExpiration, ResolveExpiration(utcNow, options).value, AbsoluteKind(), utcNow))]
    {
      var absoluteExpiration := GetAbsoluteExpiration(utcNow, options);
      if absoluteExpiration.Failure? {
        return Fail(absoluteExpiration.error);
      }
      var valid := ValidateOptions(options.slidingExpiration, absoluteExpiration.value);
      if valid.Fail? {
        return valid;
      }

      var parameters := new ParameterCollection();
      parameters := AddCacheItemId(parameters, key);
      parameters := AddCacheItemValue(parameters, Some(value));
      parameters := AddSlidingExpirationInSeconds(parameters, options.slidingExpiration);
      if isMono {
        parameters := MonoParameters.AddAbsoluteExpirationMono(parameters, absoluteExpiration.value);
      } else {
        parameters := AddAbsoluteExpiration(parameters, absoluteExpiration.value, Unspecified);
      }
      parameters := AddWithValue(parameters, "UtcNow", DateTime, Time(utcNow, Utc));
      assert parameters.items ==
        UpsertParameters(key, value, options.slidingExpiration, absoluteExpiration.value, AbsoluteKind(), utcNow);
      commands := commands + [Command(writeConnectionString, queries.setCacheItem, parameters.items)];

      if fault.None? {
        store.Upsert(key, value, options.slidingExpiration, absoluteExpiration.value, utcNow);
        outcome := Pass;
      } else if IsDuplicateKeyException(fault.value) {
        // several writers may race to add the same key
        outcome := Pass;
      } else {
        outcome := Fail(MySql(fault.value));
      }
    }
  }

  // ---------------------------------------------------------------- properties

  /**
   * What a read of a well-formed table returns: the stored value exactly when
   * the row exists, has not expired, and its absolute expiration (if any) has
   * not passed.
   */
  lemma ReadFindsLiveRow(t: Table, key: string, utcNow: int)
    requires WellFormedTable(t)
    ensures ReadValue(t, key, true, utcNow) ==
      if key in t && utcNow <= t[key].expiresAtTime &&
         (t[key].absoluteExpiration.None? || utcNow <= t[key].absoluteExpiration.value)
      then Some(t[key].value) else None
  {
    if key in t {
      var r := t[key];
      if TouchApplies(r, utcNow) {
        TouchRespectsCeiling(r, utcNow);
        assert TouchTable(t, key, utcNow)[key] == r.(expiresAtTime := TouchedExpiry(r, utcNow));
      } else {
        assert TouchTable(t, key, utcNow) == t;
      }
    }
  }

  /** A refresh never returns a value, whatever the table holds. */
  lemma RefreshReturnsNothing(t: Table, key: string, utcNow: int)
    ensures ReadValue(t, key, false, utcNow) == None
  {
  }

  /**
   * A write that fails either check reports it and leaves the table alone; an
   * explicit absolute expiration in the past is rejected whatever the sliding window.
   */
  lemma FailedValidationWritesNothing(t: Table, key: string, value: Bytes, utcNow: int, options: EntryOptions, fault: Option<MySqlException>)
    ensures var outcome := SetOutcome(utcNow, options, fault);
      (outcome.Fail? && outcome.error.InvalidOperation?) <==>
        && options.absoluteExpirationRelativeToNow.None?
        && (|| (options.absoluteExpiration.Some? && options.absoluteExpiration.value <= utcNow)
            || (options.absoluteExpiration.None? && options.slidingExpiration.None?))
    ensures && options.absoluteExpirationRelativeToNow.None?
            && options.absoluteExpiration.Some? && options.absoluteExpiration.value <= utcNow ==>
      && SetOutcome(utcNow, options, fault) == Fail(InvalidOperation(AbsoluteExpirationInPastMessage))
      && SetTable(t, key, value, utcNow, options, fault) == t
    ensures && options.absoluteExpirationRelativeToNow.None?
            && options.absoluteExpiration.None? && options.slidingExpiration.None? ==>
      && SetOutcome(utcNow, options, fault) == Fail(InvalidOperation(NoExpirationMessage))
      && SetTable(t, key, value, utcNow, options, fault) == t
  {
  }

  /** A duplicate-key error is swallowed: the write reports success and the table is unchanged. */
  lemma DuplicateKeyIsSwallowed(t: Table, key: string, value: Bytes, utcNow: int, options: EntryOptions, ex: MySqlException)
    requires ResolveExpiration(utcNow, options).Success?
    requires IsDuplicateKeyException(ex)
    ensures SetOutcome(utcNow, options, Some(ex)) == Pass
    ensures SetTable(t, key, value, utcNow, options, Some(ex)) == t
  {
  }

  /** Every write keeps every row of the table well formed. */
  lemma SetPreservesWellFormed(t: Table, key: string, value: Bytes, utcNow: int, options: EntryOptions, fault: Option<MySqlException>)
    requires WellFormedTable(t)
    ensures WellFormedTable(SetTable(t, key, value, utcNow, options, fault))
  {
    var resolved := ResolveExpiration(utcNow, options);
    if resolved.Success? && fault.None? {
      UpsertPreservesWellFormed(t, key, value, options.slidingExpiration, resolved.value, utcNow);
    }
  }

  /** A successful write is read back at the same instant, whatever the other rows of the table are. */
  lemma SetThenGetReturnsValue(t: Table, key: string, value: Bytes, utcNow: int, options: EntryOptions)
    requires SetOutcome(utcNow, options, None) == Pass
    ensures ReadValue(SetTable(t, key, value, utcNow, options, None), key, true, utcNow) == Some(value)
  {
    var empty: Table := map[];
    var t' := SetTable(t, key, value, utcNow, options, None);
    var alone := SetTable(empty, key, value, utcNow, options, None);
    var resolved := ResolveExpiration(utcNow, options);
    UpsertWritesRow(t, key, value, options.slidingExpiration, resolved.value, utcNow);
    UpsertWritesRow(empty, key, value, options.slidingExpiration, resolved.value, utcNow);
    SetPreservesWellFormed(empty, key, value, utcNow, options, None);
    ReadFindsLiveRow(alone, key, utcNow);
    ReadSeesOnlyItsRow(t', alone, key, utcNow);
  }

  /** A read depends on the row of its own key and on no other row. */
  lemma ReadSeesOnlyItsRow(t1: Table, t2: Table, key: string, utcNow: int)
    requires key in t1 <==> key in t2
    requires key in t1 ==> t1[key] == t2[key]
    ensures ReadValue(t1, key, true, utcNow) == ReadValue(t2, key, true, utcNow)
  {
    if key in t1 {
      assert TouchTable(t1, key, utcNow)[key] == TouchTable(t2, key, utcNow)[key];
    }
  }

  /**
   * A ten-second sliding item written at 0: a first read at 5 moves its
   * expiry to 15 and a first read at 10, exactly at its expiry, still finds
   * it and moves the expiry to 20. A refresh at 5 is the same touch, so it
   * also gives 15. Reads at 5 and then at 10 give 15 and then 20.
   */
  lemma SlidingReadsExtendExpiry(key: string, value: Bytes)
    ensures var options := EntryOptions(None, None, Some(10));
      var t0 := SetTable(map[], key, value, 0, options, None);
      && t0[key].expiresAtTime == 10
      && TouchTable(t0, key, 5)[key].expiresAtTime == 15
      && ReadValue(t0, key, true, 5) == Some(value)
      && TouchTable(t0, key, 10)[key].expiresAtTime == 20
      && ReadValue(t0, key, true, 10) == Some(value)
      && TouchTable(TouchTable(t0, key, 5), key, 10)[key].expiresAtTime == 20
      && ReadValue(TouchTable(t0, key, 5), key, true, 10) == Some(value)
  {
    var options := EntryOptions(None, None, Some(10));
    var t0 := SetTable(map[], key, value, 0, options, None);
    assert t0[key] == Row(value, 10, Some(10), None);
  }

  /**
   * Sliding 5 with an absolute expiration at 20, written at 0: reads at 5,
   * 10 and 15 move ExpiresAtTime to 10, 15 and then only to 20; a read at 21
   * finds nothing.
   */
  lemma SlidingStopsAtAbsoluteExpiration(key: string, value: Bytes)
    ensures var options := EntryOptions(Some(20), None, Some(5));
      var t0 := SetTable(map[], key, value, 0, options, None);
      var t5 := TouchTable(t0, key, 5);
      var t10 := TouchTable(t5, key, 10);
      var t15 := TouchTable(t10, key, 15);
      && t0[key].expiresAtTime == 5
      && t5[key].expiresAtTime == 10
      && t10[key].expiresAtTime == 15
      && t15[key].expiresAtTime == 20
      && ReadValue(t15, key, true, 21) == None
  {
    var options := EntryOptions(Some(20), None, Some(5));
    var t0 := SetTable(map[], key, value, 0, options, None);
    assert t0[key] == Row(value, 5, Some(5), Some(20));
  }
}
