# Expiration engine of the MySQL distributed cache

This project models the core of Pomelo.Extensions.Caching.MySql, an
`IDistributedCache` that keeps its items in one MySQL table, and proves
properties of that model in Dafny.

A table row holds:

- `Id`;
- `Value`;
- `ExpiresAtTime`;
- an optional `SlidingExpirationInSeconds`;
- an optional `AbsoluteExpiration`.

The modules follow the program's layers:

- **`SqlFormat`** models `string.Format` on composite format strings.
- **`MySqlQueries`** builds the table reference and the five statement texts.
- **`CacheTable`** is the table as a map from Id to row. Its `Store` class runs one method per statement:
  - the touch (a conditional UPDATE);
  - the SELECT;
  - the upsert;
  - the delete by key;
  - the sweep of expired rows.
- **`Parameters` and `MonoParameters`** hold the parameter collection and the extension methods that append to it.
- **`Operations`** holds `DatabaseOperations`, for both the standard runtime and Mono (`isMono`). It covers:
  - how a write's options are resolved and checked;
  - which connection and statement text each call uses;
  - what each call does to the table.

  Every statement sent is appended to `commands` (connection string, text, parameters), so the order of calls and what they bind are part of the stated new state.
- **`CacheOptions`** is the options object and how its connection strings fill each other in.
- **`Cache`** is the `MySqlCache` facade:
  - option checks when the cache is built;
  - null-argument checks;
  - the sweep gate on `_lastExpirationScan`.
- **`ConfigTools`** holds the statements of the set-up tool: CREATE TABLE, the index, and the INFORMATION_SCHEMA lookup.

Time is whole seconds since the zero `DateTimeOffset`. Every clock reading is a parameter (`utcNow`).

The code is followed where it differs from its tests or its configuration:

- **Key width.** The key parameter is declared 449 characters wide (MySqlParameterCollectionExtensions.cs:21). The `Id` column the tool creates is `varchar(250)` (Tools SqlQueries.cs:15). `ConfigTools.KeyParameterWiderThanKeyColumn` states the gap.
- **CREATE TABLE text.** The tool's test expects `CREATE TABLE IF NOT EXISTS `schema`.`table``. The code emits ``CREATE TABLE `table` (``: the `"{1}"` format drops the database name. `ConfigTools.TableStatementsIgnoreDatabaseName` and `ConfigTools.CreateTableHasNoExistenceGuard` state what the code does.
- **Key collation.** The tests expect keys to be compared case-sensitively and without trimming trailing spaces, and the model compares them exactly. The CREATE TABLE text declares no collation for `Id`, although the comment above it says one is added, so the server's default collation decides (see "## Left out").
- **Write connection not checked.** The facade checks only `ReadConnectionString`. `Value` never fills the write string from the read string (`CacheOptions.ReadOnlyConfigurationLeavesWriteUnset`). So a configuration with only a read string passes the checks, and the standard runtime then opens every connection with a null write string.
- **Duplicate-key check.** `IsDuplicateKeyException` is modelled branch by branch as written. `ex.Data` is an `IDictionary`, so on the real types the error-list branch cannot be taken; the check then comes down to `Number == 1022`.

## Model

| member | source | states |
|---|---|---|
| SqlFormat.FormatAppend | src/Pomelo.Extensions.Caching.MySql/MySqlQueries.cs:61 | formatting two format strings joined together gives the two formatted texts joined together, the basis of "touch, then SELECT" in one text |
| MySqlQueries.TableNameWithSchema | src/Pomelo.Extensions.Caching.MySql/MySqlQueries.cs:55-58 | the reference is `` `table` `` for an empty schema and `` `schema`.`table` `` otherwise |
| MySqlQueries.TableNameWithSchemaInjective | src/Pomelo.Extensions.Caching.MySql/MySqlQueries.cs:55-58 | for names without backticks, the reference determines both the schema name and the table name |
| MySqlQueries.BacktickTableNameImitatesSchema | src/Pomelo.Extensions.Caching.MySql/MySqlQueries.cs:92-95 | backticks are not escaped: the table name "a`.`b" without a schema gives the same reference as schema "a" with table "b" |
| MySqlQueries.NewQueries | src/Pomelo.Extensions.Caching.MySql/MySqlQueries.cs:53-67 | each statement is its fixed text with the table reference spliced in; the read text is the touch text followed by the SELECT |
| MySqlQueries.RefreshTextIsPrefixOfReadText | src/Pomelo.Extensions.Caching.MySql/MySqlQueries.cs:60-62 | the refresh text is a proper prefix of the read text, and what remains after it is exactly the SELECT |
| CacheTable.TouchedExpiry | src/Pomelo.Extensions.Caching.MySql/MySqlQueries.cs:16-22 | the touched expiry is the earlier of AbsoluteExpiration and now + sliding, or now + sliding when there is no AbsoluteExpiration |
| CacheTable.SelectRow | src/Pomelo.Extensions.Caching.MySql/MySqlQueries.cs:28-30 | a row is returned exactly when its Id is present and now <= ExpiresAtTime, and it is the stored row |
| CacheTable.UpsertExpiry | src/Pomelo.Extensions.Caching.MySql/MySqlQueries.cs:33-39 | @ExpiresAtTime is NULL exactly when both the sliding and the absolute parameters are NULL |
| CacheTable.Store.Touch | src/Pomelo.Extensions.Caching.MySql/MySqlQueries.cs:14-26 | the table becomes the touched table of the old one |
| CacheTable.Store.Select | src/Pomelo.Extensions.Caching.MySql/MySqlQueries.cs:28-30 | returns the row exactly when it exists and has not expired at now |
| CacheTable.Store.Upsert | src/Pomelo.Extensions.Caching.MySql/MySqlQueries.cs:32-47 | the table becomes the upserted table of the old one |
| CacheTable.Store.Delete | src/Pomelo.Extensions.Caching.MySql/MySqlQueries.cs:49 | removes only the key, reports 1 or 0 affected rows; a missing key is no error |
| CacheTable.Store.DeleteExpired | src/Pomelo.Extensions.Caching.MySql/MySqlQueries.cs:51 | removes the expired rows and reports how many there were |
| CacheTable.TouchOnlyMovesExpiry | src/Pomelo.Extensions.Caching.MySql/MySqlQueries.cs:14-26 | a touch keeps the key set, every other row, and every field of the touched row except ExpiresAtTime; a row outside the WHERE clause is unchanged |
| CacheTable.TouchIdempotent | src/Pomelo.Extensions.Caching.MySql/MySqlQueries.cs:14-26 | two touches at the same instant give the table one touch gives |
| CacheTable.TouchRespectsCeiling | src/Pomelo.Extensions.Caching.MySql/MySqlQueries.cs:16-22 | a touch never sets ExpiresAtTime past AbsoluteExpiration or past now + sliding, and sets it to AbsoluteExpiration when that is at most sliding away |
| CacheTable.TouchPreservesCeiling | src/Pomelo.Extensions.Caching.MySql/MySqlQueries.cs:14-26 | a row with ExpiresAtTime <= AbsoluteExpiration keeps that after any touch |
| CacheTable.ExpiredRowIsInvisible | src/Pomelo.Extensions.Caching.MySql/MySqlQueries.cs:23-30 | an expired but undeleted row is left alone by the touch and not returned by the SELECT |
| CacheTable.UpsertWritesRow | src/Pomelo.Extensions.Caching.MySql/MySqlQueries.cs:32-47 | the upsert adds or overwrites the key with all four fields: ExpiresAtTime is AbsoluteExpiration without sliding, now + sliding with it; other keys are untouched |
| CacheTable.DeleteExpiredRemovesExactlyExpired | src/Pomelo.Extensions.Caching.MySql/MySqlQueries.cs:51 | a row survives the sweep exactly when now <= ExpiresAtTime, and survivors are unchanged |
| CacheTable.SweepInvisibleToReads | src/Pomelo.Extensions.Caching.MySql/MySqlQueries.cs:14-30 | a read at or after a sweep answers as it would without the sweep |
| CacheTable.DeleteExpiredCount | src/Pomelo.Extensions.Caching.MySql/MySqlQueries.cs:51 | the affected-row count plus the rows left equals the rows before |
| CacheTable.TouchPreservesWellFormed | src/Pomelo.Extensions.Caching.MySql/MySqlQueries.cs:14-26 | the touch keeps every row well formed (positive sliding; without sliding, ExpiresAtTime equals AbsoluteExpiration) |
| CacheTable.UpsertPreservesWellFormed | src/Pomelo.Extensions.Caching.MySql/MySqlQueries.cs:32-47 | an upsert with positive sliding keeps every row well formed |
| CacheTable.DeletePreservesWellFormed | src/Pomelo.Extensions.Caching.MySql/MySqlQueries.cs:49-51 | deleting a key and sweeping expired rows keep every remaining row well formed, so with the touch and the upsert every statement keeps the invariant |
| CacheTable.ReadAfterAbsoluteExpirationFindsNothing | src/Pomelo.Extensions.Caching.MySql/MySqlQueries.cs:14-30 | once AbsoluteExpiration has passed, a read finds nothing, even if the upsert set ExpiresAtTime beyond it |
| Parameters.ParameterCollection.Add | src/Pomelo.Extensions.Caching.MySql/MySqlParameterCollectionExtensions.cs:84 | appends one parameter and keeps the earlier ones |
| Parameters.AddWithValue | src/Pomelo.Extensions.Caching.MySql/MySqlParameterCollectionExtensions.cs:76-87 | appends exactly one parameter with the given name, type and value and no size, and returns the same collection |
| Parameters.AddWithValueSized | src/Pomelo.Extensions.Caching.MySql/MySqlParameterCollectionExtensions.cs:89-101 | the same with the given size |
| Parameters.CacheItemIdParameter | src/Pomelo.Extensions.Caching.MySql/MySqlParameterCollectionExtensions.cs:23-26 | the key is bound as `Id`, VarChar, width 449 |
| Parameters.CacheItemValueParameter | src/Pomelo.Extensions.Caching.MySql/MySqlParameterCollectionExtensions.cs:28-43 | a size (8000) is declared exactly when the value is non-null and shorter than 8000 bytes; a null value is bound as the null reference |
| Parameters.SlidingExpirationParameter | src/Pomelo.Extensions.Caching.MySql/MySqlParameterCollectionExtensions.cs:45-58 | Int64 with the seconds when present, DBNull when absent |
| Parameters.AbsoluteExpirationParameter | src/Pomelo.Extensions.Caching.MySql/MySqlParameterCollectionExtensions.cs:60-74 | DateTime with the given time and kind when present, DBNull when absent |
| Parameters.AddCacheItemId | src/Pomelo.Extensions.Caching.MySql/MySqlParameterCollectionExtensions.cs:23-26 | appends the key parameter and returns the same collection |
| Parameters.AddCacheItemValue | src/Pomelo.Extensions.Caching.MySql/MySqlParameterCollectionExtensions.cs:28-43 | appends the value parameter and returns the same collection |
| Parameters.AddSlidingExpirationInSeconds | src/Pomelo.Extensions.Caching.MySql/MySqlParameterCollectionExtensions.cs:45-58 | appends the sliding parameter and returns the same collection |
| Parameters.AddAbsoluteExpiration | src/Pomelo.Extensions.Caching.MySql/MySqlParameterCollectionExtensions.cs:60-74 | appends the absolute parameter and returns the same collection |
| MonoParameters.ExpiresAtTimeMonoParameter | src/Pomelo.Extensions.Caching.MySql/MonoSqlParameterCollectionExtensions.cs:20-25 | `ExpiresAtTime`, DateTime, bound as the UTC time |
| MonoParameters.AddExpiresAtTimeMono | src/Pomelo.Extensions.Caching.MySql/MonoSqlParameterCollectionExtensions.cs:20-25 | appends that parameter and returns the same collection |
| MonoParameters.AddAbsoluteExpirationMono | src/Pomelo.Extensions.Caching.MySql/MonoSqlParameterCollectionExtensions.cs:28-42 | appends `AbsoluteExpiration` bound as UTC when present, DBNull when absent, and returns the same collection |
| Operations.GetAbsoluteExpiration | src/Pomelo.Extensions.Caching.MySql/DatabaseOperations.cs:364-382 | a relative expiration wins and resolves to now + relative; an explicit one fails ("must be in the future") exactly when it is <= now; any resolved value lies after now |
| Operations.ValidateOptions | src/Pomelo.Extensions.Caching.MySql/DatabaseOperations.cs:384-391 | fails ("Either absolute or sliding ...") exactly when both are absent |
| Operations.AnyHasCode | src/Pomelo.Extensions.Caching.MySql/DatabaseOperations.cs:357 | true exactly when some listed error has the code |
| Operations.IsDuplicateKeyException | src/Pomelo.Extensions.Caching.MySql/DatabaseOperations.cs:352-362 | false without data; by any listed error for an error list; by `Number == 1022` otherwise |
| Operations.ResolveExpiration | src/Pomelo.Extensions.Caching.MySql/DatabaseOperations.cs:143-144 | fails exactly when the absolute expiration cannot be resolved ("must be in the future") or, once resolved, neither it nor a sliding window is present ("Either absolute or sliding ..."); a success carries the resolved absolute expiration, later than now, or a sliding window |
| Operations.DatabaseOperations.constructor | src/Pomelo.Extensions.Caching.MySql/DatabaseOperations.cs:31-40 | keeps the connection strings and names and builds the statement texts from schema and table |
| Operations.DatabaseOperations.ReadConnection | src/Pomelo.Extensions.Caching.MySql/MonoDatabaseOperations.cs:38 | reads use the read connection on Mono, and the write connection on the standard runtime (DatabaseOperations.cs:239) |
| Operations.DatabaseOperations.DeleteCacheItem | src/Pomelo.Extensions.Caching.MySql/DatabaseOperations.cs:53-66 | sends the delete with the key on the write connection and removes only the key |
| Operations.DatabaseOperations.GetCacheItem | src/Pomelo.Extensions.Caching.MySql/DatabaseOperations.cs:221-284 | sends the read text (includeValue) or the touch text on `ReadConnection()`: the write connection on the standard runtime (DatabaseOperations.cs:239), the read connection in Mono's override (MonoDatabaseOperations.cs:38); touches the row, and returns the value only for a found row when includeValue |
| Operations.DatabaseOperations.GetCacheItemAsync | src/Pomelo.Extensions.Caching.MySql/MonoDatabaseOperations.cs:84-147 | as GetCacheItem, except that Mono always sends the touch-and-SELECT text |
| Operations.DatabaseOperations.RefreshCacheItem | src/Pomelo.Extensions.Caching.MySql/DatabaseOperations.cs:93-96 | a read without value: the touch text only, the table touched |
| Operations.DatabaseOperations.RefreshCacheItemAsync | src/Pomelo.Extensions.Caching.MySql/DatabaseOperations.cs:98-101 | the same through the asynchronous read: Mono sends the full read text |
| Operations.DatabaseOperations.DeleteExpiredCacheItems | src/Pomelo.Extensions.Caching.MySql/DatabaseOperations.cs:103-119 | one delete at one clock reading on the write connection; returns the number of expired rows it removed |
| Operations.DatabaseOperations.SetCacheItem | src/Pomelo.Extensions.Caching.MySql/DatabaseOperations.cs:139-178 | both checks run before any statement; the upsert binds the absolute expiration as `.DateTime` (Mono: UTC, MonoDatabaseOperations.cs:149-187); a duplicate key is swallowed, other driver errors are passed on |
| Operations.ReadFindsLiveRow | src/Pomelo.Extensions.Caching.MySql/DatabaseOperations.cs:221-284 | on a well-formed table a read returns the stored value exactly when the row exists, has not expired, and its absolute expiration has not passed |
| Operations.RefreshReturnsNothing | src/Pomelo.Extensions.Caching.MySql/DatabaseOperations.cs:235-282 | with includeValue false the result is null even when the row exists |
| Operations.FailedValidationWritesNothing | src/Pomelo.Extensions.Caching.MySql/DatabaseOperations.cs:141-147 | a write fails one of the checks exactly when there is no relative expiration and either the explicit absolute expiration is not in the future (whatever the sliding window) or neither expiration is given; each case reports its message and leaves the table as it was |
| Operations.DuplicateKeyIsSwallowed | src/Pomelo.Extensions.Caching.MySql/DatabaseOperations.cs:160-175 | a duplicate-key error makes the write report success without changing the table |
| Operations.SetPreservesWellFormed | src/Pomelo.Extensions.Caching.MySql/DatabaseOperations.cs:139-178 | every write keeps every row well formed |
| Operations.SetThenGetReturnsValue | src/Pomelo.Extensions.Caching.MySql/DatabaseOperations.cs:139-284 | a successful write is read back at the same instant, whatever the other rows of the table are |
| Operations.ReadSeesOnlyItsRow | src/Pomelo.Extensions.Caching.MySql/MySqlQueries.cs:14-30 | a read answers from the row of its own key alone: two tables that agree on that row give the same answer |
| Operations.SlidingReadsExtendExpiry | test/Pomelo.Extensions.Caching.MySql.Tests/MySqlCacheWithDatabaseTest.cs:157-183 | sliding 10 written at 0 (ExpiresAtTime 10): a first read at 5 gives 15 and a first read at 10, exactly at the expiry, still finds the item and gives 20; a refresh at 5 is the same touch and gives 15 (the test at :400-427); reads at 5 then 10 give 15 then 20 |
| Operations.SlidingStopsAtAbsoluteExpiration | test/Pomelo.Extensions.Caching.MySql.Tests/MySqlCacheWithDatabaseTest.cs:429-483 | sliding 5 with absolute 20: ExpiresAtTime 5, 10, 15, then capped at 20; a read at 21 finds nothing |
| CacheOptions.MySqlCacheOptions.constructor | src/Pomelo.Extensions.Caching.MySql/MySqlCacheOptions.cs:69 | everything unset, default sliding 20 minutes |
| CacheOptions.MySqlCacheOptions.SetConnectionString | src/Pomelo.Extensions.Caching.MySql/MySqlCacheOptions.cs:31-43 | stores the string, which the getter then returns, and fills only the read and write strings that are null |
| CacheOptions.MySqlCacheOptions.Value | src/Pomelo.Extensions.Caching.MySql/MySqlCacheOptions.cs:71-81 | write := write ?? shared, then read := read ?? shared ?? write; returns the same object |
| CacheOptions.AssignSharedKeepsExplicitStrings | src/Pomelo.Extensions.Caching.MySql/MySqlCacheOptions.cs:34-42 | assigning the shared string never overrides a set read or write string and fills the null ones |
| CacheOptions.NormalizeKeepsAndSettles | src/Pomelo.Extensions.Caching.MySql/MySqlCacheOptions.cs:71-81 | `Value` keeps set strings and a second `Value` changes nothing |
| CacheOptions.NormalizeFillsIn | src/Pomelo.Extensions.Caching.MySql/MySqlCacheOptions.cs:76-77 | afterwards write is set exactly when write or shared was, read exactly when any of the three was |
| CacheOptions.SharedStringServesBoth | src/Pomelo.Extensions.Caching.MySql/MySqlCacheOptions.cs:31-43 | a lone shared string ends up as both read and write string |
| CacheOptions.ReadOnlyConfigurationLeavesWriteUnset | src/Pomelo.Extensions.Caching.MySql/MySqlCacheOptions.cs:76-77 | a lone read string leaves the write string null |
| Cache.ValidateCacheOptions | src/Pomelo.Extensions.Caching.MySql/MySqlCache.cs:32-60 | passes exactly when read string, schema and table are non-empty, the interval is unset or at least 5 minutes, and the default sliding is positive; each failing check, when the earlier ones pass, reports its own exception: ArgumentException with its message, ArgumentOutOfRangeException for the sliding default |
| Cache.NextScan | src/Pomelo.Extensions.Caching.MySql/MySqlCache.cs:225-227 | the last scan becomes now exactly when the sweep is due |
| Cache.MySqlCache.constructor | src/Pomelo.Extensions.Caching.MySql/MySqlCache.cs:62-65 | keeps the operation layer, the interval and the default sliding; the last scan starts at the zero instant |
| Cache.MySqlCache.Create | src/Pomelo.Extensions.Caching.MySql/MySqlCache.cs:28-90 | reads the options through `Value`, fails exactly as the checks do, else builds the operation layer for the runtime with the interval defaulting to 30 minutes; the schema, table, interval and default sliding of the options keep their configured values, so the checks and the new cache see what the caller passed |
| Cache.MySqlCache.ScanForExpiredItemsIfRequired | src/Pomelo.Extensions.Caching.MySql/MySqlCache.cs:221-235 | sweeps exactly when now - last > interval, recording now as the last scan; otherwise nothing changes |
| Cache.MySqlCache.Get | src/Pomelo.Extensions.Caching.MySql/MySqlCache.cs:92-104 | a null key fails with ArgumentNull("key") and changes nothing; else the read, then the gate |
| Cache.MySqlCache.GetAsync | src/Pomelo.Extensions.Caching.MySql/MySqlCache.cs:106-118 | the same through the asynchronous read |
| Cache.MySqlCache.Refresh | src/Pomelo.Extensions.Caching.MySql/MySqlCache.cs:120-130 | null check, the touch, then the gate |
| Cache.MySqlCache.RefreshAsync | src/Pomelo.Extensions.Caching.MySql/MySqlCache.cs:132-142 | the same; on Mono the full read text is sent |
| Cache.MySqlCache.Remove | src/Pomelo.Extensions.Caching.MySql/MySqlCache.cs:144-154 | null check, the delete, then the gate |
| Cache.MySqlCache.Set | src/Pomelo.Extensions.Caching.MySql/MySqlCache.cs:168-190 | null key, value and options fail in that order and change nothing; else the write, and the gate only if the write succeeded; the statements sent are the upsert when both checks pass, then the sweep when the write succeeded and the sweep is due |
| Cache.AtMostOneSweepPerInstant | src/Pomelo.Extensions.Caching.MySql/MySqlCache.cs:225-227 | two gate checks at one clock reading sweep at most once |
| Cache.SweepsAreSpaced | src/Pomelo.Extensions.Caching.MySql/MySqlCache.cs:221-235 | over any sequence of clock readings, each sweep starts more than the interval after the previous one |
| ConfigTools.EscapeLiteral | src/Pomelo.Extensions.Caching.MySqlConfig.Tools/SqlQueries.cs:65-68 | a string without quotes is returned unchanged |
| ConfigTools.UnescapeEscapeLiteral | src/Pomelo.Extensions.Caching.MySqlConfig.Tools/SqlQueries.cs:65-68 | reading each doubled quote back as one quote gives the original name |
| ConfigTools.EscapeLiteralPairsQuotes | src/Pomelo.Extensions.Caching.MySqlConfig.Tools/SqlQueries.cs:65-68 | every quote of an escaped name is one half of a doubled pair |
| ConfigTools.NewToolQueries | src/Pomelo.Extensions.Caching.MySqlConfig.Tools/SqlQueries.cs:33-51 | an empty or null database name, then table name, fails with its message; else CREATE TABLE and the index name the table alone and the lookup embeds both escaped names |
| ConfigTools.TableStatementsIgnoreDatabaseName | src/Pomelo.Extensions.Caching.MySqlConfig.Tools/SqlQueries.cs:44-49 | CREATE TABLE and the index statement are the same for any database name |
| ConfigTools.IndexAndTableShareReference | src/Pomelo.Extensions.Caching.MySqlConfig.Tools/SqlQueries.cs:44-49 | both statements carry the table name right after their fixed heads |
| ConfigTools.CreateTableHasNoExistenceGuard | src/Pomelo.Extensions.Caching.MySqlConfig.Tools/SqlQueries.cs:14 | the CREATE TABLE text does not start with "CREATE TABLE IF NOT EXISTS" |
| ConfigTools.KeyParameterWiderThanKeyColumn | src/Pomelo.Extensions.Caching.MySqlConfig.Tools/SqlQueries.cs:14-15 | the CREATE TABLE text declares the Id column `varchar(250)` as its first column, while the key parameter is sized 449, so a key of 251 to 449 characters is accepted by the parameter and is wider than the column |

## Left out

- Connections, readers, command behaviours and `ResetDbType` are not modelled: each statement acts directly on the table map.
- Errors other than the upsert's: only the upsert takes a driver error as a parameter. Failed connections and failing reads, deletes or sweeps are not modelled. Because the sweep never fails here, recording the scan time before the delete shows only in the order of the statements in `ScanForExpiredItemsIfRequired`.
- MySQL's date functions are whole-second arithmetic. TIMEDIFF's clipping at 838:59:59, fractional seconds, and `TimeSpan.TotalSeconds` being a double are not modelled.
- Offsets and time zones: a `DateTimeOffset` is one instant in seconds. A bound time carries only its kind: `.DateTime` gives Unspecified on the standard runtime, `.UtcDateTime` gives Utc on Mono. The effect of a non-zero offset on `.DateTime` is not modelled.
- Each facade call takes one clock reading. The source reads the clock again in the operation layer and in the sweep.
- Concurrency: the `Task.Run` sweep, `.Wait()` and `await` are modelled as sequential calls. The race on `_lastExpirationScan` is not modelled.
- Asynchronous duplicates: `DeleteCacheItemAsync`, `DeleteExpiredCacheItemsAsync`, `SetCacheItemAsync` (base and Mono), `RemoveAsync` and `SetAsync` behave like their synchronous versions and are not repeated. The asynchronous reads are kept because Mono's query choice differs.
- Key comparison: keys are compared exactly, character for character, as the tests GetCacheItem_IsCaseSensitive and GetCacheItem_DoesNotTrimTrailingSpaces expect (test/Pomelo.Extensions.Caching.MySql.Tests/MySqlCacheWithDatabaseTest.cs:544-578). The table the tool creates declares `` `Id` varchar(250) `` with no collation, although the comment above its format string says a collation makes the key case-sensitive (src/Pomelo.Extensions.Caching.MySqlConfig.Tools/SqlQueries.cs:11-15). `WHERE Id = @Id` therefore compares under the server's default collation, which usually ignores case and, for PAD SPACE collations, trailing spaces. Collations are not modelled.
- Key widths: keys are compared whole. Neither the 449-character size of the key parameter nor the `varchar(250)` of the Id column is applied to the table. The behaviour of a longer key on the server is not modelled: the test at test/Pomelo.Extensions.Caching.MySql.Tests/MySqlCacheWithDatabaseTest.cs:110-128 expects a 450-character key to be written without error and then not found.
- Backslash escapes in MySQL string literals are not modelled, and the tool does not escape backslashes either. `UnescapeLiteral` reads only doubled quotes. A name such as `a\'` therefore reads back differently under the server's default SQL mode.
- The one-argument `GetCacheItem(key)` is `GetCacheItem(key, true)` and has no member of its own.
- The system clock and `PlatformHelper` are replaced by parameters: `utcNow` and `isMono`.
- `GetOptions` (MySqlCache.cs:237-248) is not modelled: its calls are commented out.
- Program.cs of the tool, dependency-injection registration and `IDatabaseOperations` are not part of this model.
- Cache.MySqlCache.Create: the C# constructor is modelled as a factory returning the cache or the exception, because a Dafny constructor cannot fail.
